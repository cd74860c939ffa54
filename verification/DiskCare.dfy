/** Disk care on one node: record what the desired state needs, work out which
    releases to keep, and ask the engine to remove the images of the others. */
module DiskCare {
  import opened Text
  import opened Sorting
  import opened ReleaseLogs
  import opened ReleaseContents
  import opened Retention
  import opened Pruning
  import opened DesiredStates

  const DEFAULT_RETAINED_PREVIOUS := 10

  datatype ContainerState = ContainerState(name: string, image: string, managed: bool)
  datatype ImageState = ImageState(id: string, repoTags: seq<string>, repoDigests: seq<string>, size: int)
  datatype ImageDelete = ImageDelete(untagged: string, deleted: string)
  datatype Artifact = Artifact(reference: string, bytes: int)

  datatype Fault =
    | ReadState
    | CorruptState
    | ListContainers
    | ListImages
    | InspectImage(image: string)
    | RemoveImage(image: string)
    | SaveState
    | InspectLogs

  datatype Status = Status(retainedCount: nat, reclaimedBytes: int, artifacts: seq<Artifact>, lastError: Option<Fault>)

  /** The state file as `loadStore` finds it; an empty file counts as absent. */
  datatype File = Absent | Corrupt | Saved(releases: seq<Release>)

  /** One request to remove an image, and the engine's answer if it succeeded. */
  datatype Removal = Removal(image: string, answer: Option<seq<ImageDelete>>)

  // ---- the node ----

  /** The engine and the state file.  Any call may fail; a failed removal may
      still have removed things, but no call brings an image back. */
  class Machine {
    var containers: seq<ContainerState>
    var images: seq<ImageState>
    /** The references the engine can resolve. */
    var present: set<string>
    var file: File
    ghost var removals: seq<Removal>
    ghost var faults: seq<Fault>

    /** Any call that only asks. */
    method Attempt(fault: Fault) returns (ok: bool)
      modifies this`faults
      ensures faults == if ok then old(faults) else old(faults) + [fault]
    {
      ok := *;
      if !ok { faults := faults + [fault]; }
    }

    method ImageExists(image: string) returns (r: Option<bool>)
      modifies this`faults
      ensures if r.Some? then faults == old(faults) && r.value == (image in present)
              else faults == old(faults) + [InspectImage(image)]
    {
      var ok := Attempt(InspectImage(image));
      r := if ok then Some(image in present) else None;
    }

    method RemoveImage(image: string) returns (r: Option<seq<ImageDelete>>)
      modifies this`faults, this`present, this`images, this`removals
      ensures removals == old(removals) + [Removal(image, r)]
      ensures present <= old(present) && (r.Some? ==> image !in present)
      ensures faults == if r.Some? then old(faults) else old(faults) + [Fault.RemoveImage(image)]
    {
      var ok := Attempt(Fault.RemoveImage(image));
      var answer: seq<ImageDelete>, left: set<string>, listing: seq<ImageState> := *, *, *;
      present := present * left;
      images := listing;
      r := None;
      if ok {
        present := present - {image};
        r := Some(answer);
      }
      removals := removals + [Removal(image, r)];
    }

    method WriteFile(releases: seq<Release>) returns (ok: bool)
      modifies this`faults, this`file
      ensures file == if ok then Saved(releases) else old(file)
      ensures faults == if ok then old(faults) else old(faults) + [SaveState]
    {
      ok := Attempt(SaveState);
      if ok { file := Saved(releases); }
    }
  }

  /** `joinFirst` over a whole run. */
  function FirstFault(faults: seq<Fault>): Option<Fault> {
    if faults == [] then None else Some(faults[0])
  }

  // ---- the releases of the desired state ----

  function NeedsOf(state: DesiredState): seq<Need> {
    var services, tasks := AllServices(state), AllTasks(state);
    seq(|services|, i requires 0 <= i < |services| =>
      Need(services[i].environmentName, services[i].environmentRevision, services[i].service.image)) +
    seq(|tasks|, i requires 0 <= i < |tasks| =>
      Need(tasks[i].environmentName, tasks[i].environmentRevision, tasks[i].task.image))
  }

  /** Some service or task of environment `i` has image `x`. */
  ghost predicate HasImage(env: Environment, x: string) {
    || (exists j :: 0 <= j < |env.services| && env.services[j].Some? && Trim(env.services[j].value.image) == x)
    || (exists j :: 0 <= j < |env.tasks| && env.tasks[j].Some? && Trim(env.tasks[j].value.image) == x)
  }

  /** The desired state names image `x`, in an environment and at a revision that make
      up `key`: the revision is the environment's own or, failing that, the state's. */
  ghost predicate NamedUnder(state: DesiredState, key: string, x: string) {
    exists i :: 0 <= i < |state.environments| && state.environments[i].Some? &&
      NamedIn(state, state.environments[i].value, key, x)
  }

  ghost predicate NamedIn(state: DesiredState, env: Environment, key: string, x: string) {
    var revision := if Blank(env.revision) then Trim(state.revision) else Trim(env.revision);
    && Trim(env.name) != "" && revision != "" && x != "" && HasImage(env, x)
    && key == Trim(env.name) + ['\0'] + revision
  }

  /** The needs are exactly what the desired state names. */
  lemma NeedsAreNamed(state: DesiredState, key: string, x: string)
    ensures Needed(NeedsOf(state), |NeedsOf(state)|, key, x) <==> NamedUnder(state, key, x)
  {
    hide Trim, Counts, NeedKey, ServicesUpTo, TasksUpTo, IsServiceAt, IsTaskAt;
    var needs := NeedsOf(state);
    var services, tasks := AllServices(state), AllTasks(state);
    var n := |state.environments|;
    ServiceMembers(state, n);
    TaskMembers(state, n);
    if Needed(needs, |needs|, key, x) {
      var k :| 0 <= k < |needs| && Counts(needs[k]) && NeedKey(needs[k]) == key && Trim(needs[k].image) == x;
      if k < |services| {
        assert services[k] in services;
        var i, j :| i < n && IsServiceAt(state, i, j, services[k]);
        ServiceIsNamed(state, i, j, services[k], needs[k], key, x);
      } else {
        assert tasks[k - |services|] in tasks;
        var i, j :| i < n && IsTaskAt(state, i, j, tasks[k - |services|]);
        TaskIsNamed(state, i, j, tasks[k - |services|], needs[k], key, x);
      }
    }
    if NamedUnder(state, key, x) {
      NamedIsNeeded(state, key, x);
    }
  }

  lemma ServiceIsNamed(state: DesiredState, i: int, j: int, rs: RuntimeService, n: Need, key: string, x: string)
    requires IsServiceAt(state, i, j, rs)
    requires n == Need(rs.environmentName, rs.environmentRevision, rs.service.image)
    ensures 0 <= i < |state.environments| && state.environments[i].Some?
    ensures Counts(n) && NeedKey(n) == key && Trim(n.image) == x ==>
      NamedIn(state, state.environments[i].value, key, x)
  {
    hide Trim;
    var env := state.environments[i].value;
    TrimTrims(env.name);
    TrimTrims(if Blank(env.revision) then state.revision else env.revision);
  }

  lemma TaskIsNamed(state: DesiredState, i: int, j: int, rt: RuntimeTask, n: Need, key: string, x: string)
    requires IsTaskAt(state, i, j, rt)
    requires n == Need(rt.environmentName, rt.environmentRevision, rt.task.image)
    ensures 0 <= i < |state.environments| && state.environments[i].Some?
    ensures Counts(n) && NeedKey(n) == key && Trim(n.image) == x ==>
      NamedIn(state, state.environments[i].value, key, x)
  {
    hide Trim;
    var env := state.environments[i].value;
    TrimTrims(env.name);
    TrimTrims(if Blank(env.revision) then state.revision else env.revision);
  }

  lemma NamedIsNeeded(state: DesiredState, key: string, x: string)
    requires NamedUnder(state, key, x)
    ensures Needed(NeedsOf(state), |NeedsOf(state)|, key, x)
  {
    hide Trim, NeedsOf, Needed;
    var i :| 0 <= i < |state.environments| && state.environments[i].Some? &&
      NamedIn(state, state.environments[i].value, key, x);
    var env := state.environments[i].value;
    if j :| 0 <= j < |env.services| && env.services[j].Some? && Trim(env.services[j].value.image) == x {
      ServiceIsNeeded(state, i, j, key, x);
    } else {
      var j :| 0 <= j < |env.tasks| && env.tasks[j].Some? && Trim(env.tasks[j].value.image) == x;
      TaskIsNeeded(state, i, j, key, x);
    }
  }

  lemma ServiceIsNeeded(state: DesiredState, i: int, j: int, key: string, x: string)
    requires 0 <= i < |state.environments| && state.environments[i].Some?
    requires NamedIn(state, state.environments[i].value, key, x)
    requires 0 <= j < |state.environments[i].value.services| && state.environments[i].value.services[j].Some?
    requires Trim(state.environments[i].value.services[j].value.image) == x
    ensures Needed(NeedsOf(state), |NeedsOf(state)|, key, x)
  {
    hide Trim, ServicesUpTo, TasksUpTo, NormalizedServiceKind, IsServiceAt, HasImage;
    var env := state.environments[i].value;
    var rs, services, needs := RuntimeServiceOf(state, env, env.services[j].value), AllServices(state), NeedsOf(state);
    TrimTrims(env.name);
    TrimTrims(if Blank(env.revision) then state.revision else env.revision);
    ServiceMembers(state, |state.environments|);
    ServiceComesOut(state, i, j);
    assert rs in services;
    var k :| 0 <= k < |services| && services[k] == rs;
    assert needs[k] == Need(rs.environmentName, rs.environmentRevision, rs.service.image);
  }

  lemma TaskIsNeeded(state: DesiredState, i: int, j: int, key: string, x: string)
    requires 0 <= i < |state.environments| && state.environments[i].Some?
    requires NamedIn(state, state.environments[i].value, key, x)
    requires 0 <= j < |state.environments[i].value.tasks| && state.environments[i].value.tasks[j].Some?
    requires Trim(state.environments[i].value.tasks[j].value.image) == x
    ensures Needed(NeedsOf(state), |NeedsOf(state)|, key, x)
  {
    hide Trim, ServicesUpTo, TasksUpTo, NormalizedServiceKind, HasImage;
    var env := state.environments[i].value;
    var rt := RuntimeTask(Trim(env.name), EnvRevision(state, env), env.tasks[j].value);
    var services, tasks, needs := AllServices(state), AllTasks(state), NeedsOf(state);
    TrimTrims(env.name);
    TrimTrims(if Blank(env.revision) then state.revision else env.revision);
    TaskMembers(state, |state.environments|);
    assert IsTaskAt(state, i, j, rt);
    assert rt in tasks;
    var k :| 0 <= k < |tasks| && tasks[k] == rt;
    assert needs[|services| + k] == Need(rt.environmentName, rt.environmentRevision, rt.task.image);
  }

  /** `environment` and `revision` are those of one of the first `n` environments. */
  ghost predicate OfEnvironment(state: DesiredState, n: nat, environment: string, revision: string)
    requires n <= |state.environments|
  {
    exists i :: 0 <= i < n && state.environments[i].Some? &&
      environment == Trim(state.environments[i].value.name) &&
      revision == EnvRevision(state, state.environments[i].value)
  }

  lemma {:induction false} EnvironmentParts(state: DesiredState, env: Environment, n: nat, m: nat)
    requires n <= |env.services| && m <= |env.tasks|
    ensures forall rs <- EnvServices(state, env, n) ::
              rs.environmentName == Trim(env.name) && rs.environmentRevision == EnvRevision(state, env)
    ensures forall rt <- EnvTasks(state, env, m) ::
              rt.environmentName == Trim(env.name) && rt.environmentRevision == EnvRevision(state, env)
  {
    hide Trim, EnvRevision, NormalizedServiceKind;
    if n > 0 { EnvironmentParts(state, env, n - 1, m); }
    if m > 0 { EnvironmentParts(state, env, n, m - 1); }
  }

  lemma {:induction false} PartsOfEnvironments(state: DesiredState, n: nat)
    requires n <= |state.environments|
    ensures forall rs <- ServicesUpTo(state, n) :: OfEnvironment(state, n, rs.environmentName, rs.environmentRevision)
    ensures forall rt <- TasksUpTo(state, n) :: OfEnvironment(state, n, rt.environmentName, rt.environmentRevision)
  {
    hide Trim, EnvRevision, EnvServices, EnvTasks;
    if n > 0 {
      PartsOfEnvironments(state, n - 1);
      if state.environments[n - 1].Some? {
        var env := state.environments[n - 1].value;
        EnvironmentParts(state, env, |env.services|, |env.tasks|);
      }
    }
  }

  lemma NeedsOfEnvironments(state: DesiredState, n: Need)
    requires n in NeedsOf(state)
    ensures OfEnvironment(state, |state.environments|, n.environment, n.revision)
  {
    hide Trim, EnvRevision, ServicesUpTo, TasksUpTo, OfEnvironment;
    PartsOfEnvironments(state, |state.environments|);
  }

  /** In a validated state the needs of one environment are all of one release. */
  lemma OneRelease(state: DesiredState, sanitize: string -> string, n: Need, m: Need)
    requires EnvironmentsOk(state.environments, sanitize)
    requires n in NeedsOf(state) && m in NeedsOf(state) && Trim(n.environment) == Trim(m.environment)
    ensures NeedKey(n) == NeedKey(m)
  {
    hide Trim, EnvRevision, ServiceNamesValidated, NeedsOf, EnvironmentsOk;
    NeedsOfEnvironments(state, n);
    NeedsOfEnvironments(state, m);
    EnvironmentsOkNames(state.environments, sanitize);
    var envs := state.environments;
    var i :| 0 <= i < |envs| && envs[i].Some? && n.environment == Trim(envs[i].value.name) &&
      n.revision == EnvRevision(state, envs[i].value);
    var j :| 0 <= j < |envs| && envs[j].Some? && m.environment == Trim(envs[j].value.name) &&
      m.revision == EnvRevision(state, envs[j].value);
    TrimTrims(envs[i].value.name);
    TrimTrims(envs[j].value.name);
    assert n.environment == m.environment;
    assert i == j;
  }

  /** No environment that the desired state needs has a NUL in its name. */
  ghost predicate NulFree(state: DesiredState) {
    forall n <- NeedsOf(state) :: '\0' !in Trim(n.environment)
  }

  /** Two keys that go on from one environment `e` were made from one environment, if
      those they were made from have no NUL. */
  lemma KeyPart(e: string, a: string, b: string, r: string, q: string, x: string, y: string)
    requires '\0' !in a && '\0' !in b
    requires a + ['\0'] + r == e + ['\0'] + x && b + ['\0'] + q == e + ['\0'] + y
    ensures a == b
  {
    KeyHead(e, a, r, x);
    KeyHead(e, b, q, y);
    assert forall k :: 0 <= k < |a| ==> (e + ['\0'])[k] == a[k] && a[k] in a;
    assert forall k :: 0 <= k < |b| ==> (e + ['\0'])[k] == b[k] && b[k] in b;
    assert |a| == |b|;
  }

  lemma KeyHead(e: string, a: string, r: string, x: string)
    requires '\0' !in a && a + ['\0'] + r == e + ['\0'] + x
    ensures |a| <= |e| && (e + ['\0'])[..|a|] == a && (e + ['\0'])[|a|] == '\0'
  {
    var key := a + ['\0'] + r;
    assert key[|e|] == '\0' && key[|a|] == '\0';
    assert forall k :: 0 <= k < |a| ==> key[k] == a[k] && a[k] in a;
    assert |a| <= |e|;
    assert forall k :: 0 <= k <= |e| ==> key[k] == (e + ['\0'])[k];
  }

  /** When the desired state is valid and no name has a NUL, every environment has at
      most one current release, as the exact condition for losing one's place asks. */
  lemma ValidatedOneCurrent(state: DesiredState, sanitize: string -> string, current: seq<Release>, now: int,
                            log: seq<Release>, i: nat)
    requires EnvironmentsOk(state.environments, sanitize) && NulFree(state) && Describes(current, NeedsOf(state), now)
    requires DistinctKeys(log) && i < |log|
    ensures OneCurrent(log, current, i)
  {
    hide Trim, NeedsOf, EnvironmentsOk, DistinctKeys, Describes, CurrentBeside;
    forall c: nat, d: nat | CurrentBeside(log, current, i, c) && CurrentBeside(log, current, i, d) ensures c == d {
      CurrentBesideIs(log, current, i, c);
      CurrentBesideIs(log, current, i, d);
      var n := NeedBehind(state, current, now, KeyOf(log[c]));
      var m := NeedBehind(state, current, now, KeyOf(log[d]));
      KeyPart(EnvOf(log[i]), Trim(n.environment), Trim(m.environment), Trim(n.revision), Trim(m.revision),
              Trim(log[c].revision), Trim(log[d].revision));
      OneRelease(state, sanitize, n, m);
      SameKeySameIndex(log, c, d);
    }
  }

  lemma CurrentBesideIs(log: seq<Release>, current: seq<Release>, i: nat, c: nat)
    requires i < |log| && CurrentBeside(log, current, i, c)
    ensures c < |log| && EnvOf(log[c]) == EnvOf(log[i]) && HasKey(current, KeyOf(log[c]))
  {
  }

  /** A current release is needed. */
  lemma NeedBehind(state: DesiredState, current: seq<Release>, now: int, key: string) returns (n: Need)
    requires Describes(current, NeedsOf(state), now) && HasKey(current, key)
    ensures n in NeedsOf(state) && NeedKey(n) == key
  {
    hide Trim, NeedsOf, Counts, KeyOf, NeedKey;
    var k :| 0 <= k < |current| && KeyOf(current[k]) == key;
    assert current[k] in current && NormalRelease(current[k]);
    var x := current[k].images[0];
    assert x in current[k].images;
    var needs := NeedsOf(state);
    var j :| 0 <= j < |needs| && Counts(needs[j]) && NeedKey(needs[j]) == key && Trim(needs[j].image) == x;
    n := needs[j];
  }

  /** Why NUL matters: the release `y` of environment `e NUL x` and the release
      `x NUL y` of environment `e` have one key, so a log with a record of the latter
      can have two current releases in `e`. */
  lemma NulMakesTwoCurrent(e: string, r: string, x: string, y: string, a: Release, b: Release, current: seq<Release>)
    requires a.environment == e && a.revision == r && b.environment == e && b.revision == x + ['\0'] + y
    requires Trimmed(e) && Trimmed(r) && Trimmed(y) && Trimmed(e + ['\0'] + x) && Trimmed(x + ['\0'] + y)
    requires HasKey(current, NeedKey(Need(e, r, ""))) && HasKey(current, NeedKey(Need(e + ['\0'] + x, y, "")))
    ensures !OneCurrent([a, b], current, 0)
  {
    hide Trim, HasKey;
    assert e + ['\0'] + (x + ['\0'] + y) == (e + ['\0'] + x) + ['\0'] + y;
    assert CurrentBeside([a, b], current, 0, 0) && CurrentBeside([a, b], current, 0, 1);
  }

  /** The record being built for one release; its images are not sorted yet. */
  ghost predicate Building(r: Release, needs: seq<Need>, n: nat, now: int)
    requires n <= |needs|
  {
    && r.environment != "" && Trimmed(r.environment)
    && r.revision != "" && Trimmed(r.revision)
    && r.images != [] && Sorting.Distinct(r.images) && r.seenAt == now
    && (forall x <- r.images :: x != "" && Trimmed(x))
    && (forall x :: x in r.images <==> Needed(needs, n, KeyOf(r), x))
  }

  /** `releases` holds what the first `n` needs amount to. */
  ghost predicate Gathered(releases: map<string, Release>, needs: seq<Need>, n: nat, now: int)
    requires n <= |needs|
  {
    && (forall key <- releases :: KeyOf(releases[key]) == key && Building(releases[key], needs, n, now))
    && (forall key, x :: Needed(needs, n, key, x) ==> key in releases)
  }

  lemma NeededStep(needs: seq<Need>, n: nat, m: nat)
    requires m == n + 1 <= |needs|
    ensures forall key, x :: Needed(needs, m, key, x) <==>
                             Needed(needs, n, key, x) || (Counts(needs[n]) && NeedKey(needs[n]) == key &&
                                                          Trim(needs[n].image) == x)
  {
    hide Counts, NeedKey, Trim;
    forall key, x ensures Needed(needs, m, key, x) <==>
                          Needed(needs, n, key, x) || (Counts(needs[n]) && NeedKey(needs[n]) == key &&
                                                       Trim(needs[n].image) == x)
    {
      if Needed(needs, n, key, x) {
        var j :| 0 <= j < n && Counts(needs[j]) && NeedKey(needs[j]) == key && Trim(needs[j].image) == x;
        assert j < m;
      }
    }
  }

  lemma KeyOfTrimmed(n: Need, images: seq<string>, now: int)
    ensures KeyOf(Release(Trim(n.environment), Trim(n.revision), images, now)) == NeedKey(n)
    ensures Trimmed(Trim(n.environment)) && Trimmed(Trim(n.revision)) && Trimmed(Trim(n.image))
  {
    TrimTrims(n.environment);
    TrimTrims(n.revision);
    TrimTrims(n.image);
  }

  /** `addReleaseImage`. */
  method AddReleaseImage(releases: map<string, Release>, environment: string, revision: string, image: string, now: int,
                         ghost needs: seq<Need>, ghost n: nat) returns (r: map<string, Release>)
    requires n < |needs| && needs[n] == Need(environment, revision, image) && Gathered(releases, needs, n, now)
    ensures Gathered(r, needs, n + 1, now)
  {
    hide Trim, KeyOf, NeedKey, Gathered;
    ghost var need := needs[n];
    var environment_, revision_, image_ := Trim(environment), Trim(revision), Trim(image);
    r := releases;
    if environment_ == "" || revision_ == "" || image_ == "" {
      GatheredSkips(releases, needs, n, now);
      return;
    }
    var key := KeyOf(Release(environment_, revision_, [], now));
    KeyOfTrimmed(need, [], now);
    var release := if key in r then r[key] else Release(environment_, revision_, [], now);
    if image_ !in release.images {
      release := release.(images := release.images + [image_]);
    }
    GatheredAdds(releases, needs, n, now, release);
    r := r[key := release];
  }

  lemma GatheredSkips(releases: map<string, Release>, needs: seq<Need>, n: nat, now: int)
    requires n < |needs| && Gathered(releases, needs, n, now) && !Counts(needs[n])
    ensures Gathered(releases, needs, n + 1, now)
  {
    hide Trim, KeyOf, NeedKey, Needed, Counts, Building;
    NeededStep(needs, n, n + 1);
    forall k <- releases ensures Building(releases[k], needs, n + 1, now) {
      BuildingKeeps(releases[k], needs, n, now);
    }
  }

  lemma GatheredAdds(releases: map<string, Release>, needs: seq<Need>, n: nat, now: int, release: Release)
    requires n < |needs| && Gathered(releases, needs, n, now) && Counts(needs[n])
    requires
      var key := NeedKey(needs[n]);
      var was := if key in releases then releases[key] else Release(Trim(needs[n].environment), Trim(needs[n].revision),
                                                                    [], now);
      release == if Trim(needs[n].image) in was.images then was else was.(images := was.images + [Trim(needs[n].image)])
    ensures Gathered(releases[NeedKey(needs[n]) := release], needs, n + 1, now)
  {
    hide Trim, KeyOf, NeedKey, Needed, Building, Counts;
    NeededStep(needs, n, n + 1);
    var key := NeedKey(needs[n]);
    GatheredRelease(releases, needs, n, now, release);
    forall k <- releases | k != key ensures Building(releases[k], needs, n + 1, now) {
      BuildingKeeps(releases[k], needs, n, now);
    }
  }

  lemma BuildingKeeps(r: Release, needs: seq<Need>, n: nat, now: int)
    requires n < |needs| && Building(r, needs, n, now)
    requires !Counts(needs[n]) || KeyOf(r) != NeedKey(needs[n])
    ensures Building(r, needs, n + 1, now)
  {
    hide Trim, KeyOf, NeedKey, Needed, Counts;
    NeededStep(needs, n, n + 1);
  }

  lemma GatheredRelease(releases: map<string, Release>, needs: seq<Need>, n: nat, now: int, release: Release)
    requires n < |needs| && Gathered(releases, needs, n, now) && Counts(needs[n])
    requires
      var key := NeedKey(needs[n]);
      var was := if key in releases then releases[key] else Release(Trim(needs[n].environment), Trim(needs[n].revision),
                                                                    [], now);
      release == if Trim(needs[n].image) in was.images then was else was.(images := was.images + [Trim(needs[n].image)])
    ensures KeyOf(release) == NeedKey(needs[n]) && Building(release, needs, n + 1, now)
  {
    hide Trim, KeyOf, NeedKey, Needed;
    NeededStep(needs, n, n + 1);
    var key := NeedKey(needs[n]);
    KeyOfTrimmed(needs[n], release.images, now);
    if key in releases {
      SameKey(release, releases[key]);
    } else {
      assert release.images == [Trim(needs[n].image)];
    }
  }

  /** `releasesFromDesired`.  The records come out in no particular order. */
  method ReleasesFromDesired(state: DesiredState, now: int) returns (out: seq<Release>)
    ensures Describes(out, NeedsOf(state), now)
    ensures forall c <- out, x :: x in c.images <==> NamedUnder(state, KeyOf(c), x)
    ensures forall key, x :: NamedUnder(state, key, x) ==> HasKey(out, key)
  {
    hide Trim, KeyOf, Gathered, Needed, AllServices, AllTasks, Describes, CurrentList, HasKey, NamedUnder;
    ghost var needs := NeedsOf(state);
    var services := RuntimeServices(state);
    var tasks := RuntimeTasks(state);
    var releases: map<string, Release> := map[];
    NothingGathered(needs, now);
    for i := 0 to |services|
      invariant Gathered(releases, needs, i, now)
    {
      releases := AddReleaseImage(releases, services[i].environmentName, services[i].environmentRevision,
                                  services[i].service.image, now, needs, i);
    }
    for i := 0 to |tasks|
      invariant Gathered(releases, needs, |services| + i, now)
    {
      releases := AddReleaseImage(releases, tasks[i].environmentName, tasks[i].environmentRevision, tasks[i].task.image,
                                  now, needs, |services| + i);
    }
    out := [];
    var left := releases.Keys;
    while left != {}
      invariant left <= releases.Keys
      invariant Emitted(out, releases, left)
      decreases left
    {
      var key :| key in left;
      left := left - {key};
      EmittedSteps(out, releases, left, key, needs, now);
      out := out + [releases[key].(images := SortStrings(releases[key].images))];
    }
    EmittedEnds(out, releases, needs, now);
    DescribesNamed(out, state, now);
  }

  lemma DescribesNamed(current: seq<Release>, state: DesiredState, now: int)
    requires Describes(current, NeedsOf(state), now)
    ensures forall c <- current, x :: x in c.images <==> NamedUnder(state, KeyOf(c), x)
    ensures forall key, x :: NamedUnder(state, key, x) ==> HasKey(current, key)
  {
    hide KeyOf, NamedUnder, NeedsOf, Needed, HasKey, CurrentList;
    forall key, x ensures Needed(NeedsOf(state), |NeedsOf(state)|, key, x) <==> NamedUnder(state, key, x) {
      NeedsAreNamed(state, key, x);
    }
  }

  lemma NothingGathered(needs: seq<Need>, now: int)
    ensures Gathered(map[], needs, 0, now)
  {
  }

  /** `out` holds the records taken so far, sorted; `left` are still to come. */
  ghost predicate Emitted(out: seq<Release>, releases: map<string, Release>, left: set<string>) {
    && (forall i :: 0 <= i < |out| ==>
        KeyOf(out[i]) in releases.Keys - left &&
        Polished(releases[KeyOf(out[i])], out[i]))
    && (forall key <- releases :: key !in left ==> HasKey(out, key))
    && DistinctKeys(out)
  }

  ghost predicate Polished(r: Release, out: Release) {
    out == r.(images := SortStrings(r.images))
  }

  lemma EmittedSteps(out: seq<Release>, releases: map<string, Release>, left: set<string>, key: string,
                     needs: seq<Need>, now: int)
    requires Gathered(releases, needs, |needs|, now) && key in releases && key !in left
    requires Emitted(out, releases, left + {key})
    ensures Emitted(out + [releases[key].(images := SortStrings(releases[key].images))], releases, left)
  {
    hide KeyOf, SortStrings, Building, Needed, Polished;
    var r := releases[key].(images := SortStrings(releases[key].images));
    SameKey(r, releases[key]);
    assert Polished(releases[key], r) by { hide *; PolishedIs(releases[key]); }
    forall k <- releases | k !in left ensures HasKey(out + [r], k) {
      KeysOfJoin(out, [r], k);
      if k == key { InHasKey([r], r); }
    }
  }

  lemma PolishedIs(r: Release)
    ensures Polished(r, r.(images := SortStrings(r.images)))
  {
  }

  lemma EmittedEnds(out: seq<Release>, releases: map<string, Release>, needs: seq<Need>, now: int)
    requires Gathered(releases, needs, |needs|, now) && Emitted(out, releases, {})
    ensures Describes(out, needs, now)
  {
    hide KeyOf, SortStrings, Building, Needed, Polished, NormalRelease;
    forall c <- out
      ensures NormalRelease(c) && c.seenAt == now && forall x :: x in c.images <==> Needed(needs, |needs|, KeyOf(c), x)
    {
      var i :| 0 <= i < |out| && out[i] == c;
      PolishedSpec(releases[KeyOf(c)], c, needs, now);
    }
  }

  lemma PolishedSpec(r: Release, c: Release, needs: seq<Need>, now: int)
    requires Building(r, needs, |needs|, now) && Polished(r, c)
    ensures NormalRelease(c) && c.seenAt == now && forall x :: x in c.images <==> Needed(needs, |needs|, KeyOf(c), x)
  {
    hide KeyOf, SortStrings, Trim, StrictlySorted, Needed;
    SameKey(r, c);
    SortStringsSpec(r.images);
  }

  // ---- what is in use ----

  function TrimmedSet(values: seq<string>): set<string> {
    set v <- values | !Blank(v) :: Trim(v)
  }

  /** `stringSet`. */
  method StringSet(values: seq<string>) returns (r: set<string>)
    ensures r == TrimmedSet(values)
  {
    hide Trim;
    r := {};
    for i := 0 to |values|
      invariant r == TrimmedSet(values[..i])
    {
      assert values[..i + 1] == values[..i] + [values[i]];
      var value := Trim(values[i]);
      if value == "" { continue; }
      r := r + {value};
    }
    assert values[..|values|] == values;
  }

  function ImagesUsed(containers: seq<ContainerState>): (r: set<string>)
    ensures forall c <- containers :: !Blank(c.image) ==> Trim(c.image) in r
  {
    set c <- containers | !Blank(c.image) :: Trim(c.image)
  }

  /** `usedContainerImages`. */
  method UsedContainerImages(containers: seq<ContainerState>) returns (used: set<string>)
    ensures used == ImagesUsed(containers)
  {
    hide Trim;
    used := {};
    for i := 0 to |containers|
      invariant used == ImagesUsed(containers[..i])
    {
      assert containers[..i + 1] == containers[..i] + [containers[i]];
      var image := Trim(containers[i].image);
      if image == "" { continue; }
      used := used + {image};
    }
    assert containers[..|containers|] == containers;
  }

  function ImageRefs(image: ImageState): seq<string> {
    [image.id] + image.repoTags + image.repoDigests
  }

  /** The size of the last listed image that goes by `ref`. */
  function SizeOf(images: seq<ImageState>, ref: string): Option<int> {
    if images == [] then None
    else
      var last := images[|images| - 1];
      if ref in ImageRefs(last) then Some(last.size) else SizeOf(images[..|images| - 1], ref)
  }

  function SizeForImage(images: seq<ImageState>, ref: string): int {
    var size := SizeOf(images, ref);
    if size.Some? then size.value else 0
  }

  /** The index has every reference of a listed image, and its size. */
  ghost predicate SizesIn(index: map<string, int>, images: seq<ImageState>) {
    forall ref :: SizeOf(images, ref) == if ref in index then Some(index[ref]) else None
  }

  lemma IndexedSize(index: map<string, int>, images: seq<ImageState>, ref: string)
    requires SizesIn(index, images)
    ensures SizeForImage(images, ref) == if ref in index then index[ref] else 0
  {
    hide SizeOf;
  }

  /** `imageSizeIndex`; its keys are `imageRefSet`. */
  method ImageSizeIndex(images: seq<ImageState>) returns (index: map<string, int>)
    ensures SizesIn(index, images)
  {
    hide ImageRefs;
    index := map[];
    for i := 0 to |images|
      invariant forall ref :: SizeOf(images[..i], ref) == if ref in index then Some(index[ref]) else None
    {
      assert images[..i + 1][..i] == images[..i] && images[..i + 1][i] == images[i];
      var refs := ImageRefs(images[i]);
      ghost var was := index;
      for j := 0 to |refs|
        invariant forall ref :: (if ref in index then Some(index[ref]) else None) ==
                                if ref in refs[..j] then Some(images[i].size) else if ref in was then Some(was[ref])
                                  else None
      {
        assert refs[..j + 1] == refs[..j] + [refs[j]];
        index := index[refs[j] := images[i].size];
      }
      assert refs[..|refs|] == refs;
    }
    assert images[..|images|] == images;
  }

  // ---- candidates ----

  /** `retainedImageRefs`. */
  method RetainedImageRefs(releases: seq<Release>, retainedKeys: set<string>, current: seq<Release>,
                           protectedImages: set<string>, used: set<string>) returns (retained: set<string>)
    ensures forall x :: x in retained <==> Holds(releases, retainedKeys, current, protectedImages + used, x)
  {
    hide KeyOf, Listed, Current;
    retained := protectedImages + used;
    NothingListed(releases, retainedKeys);
    for i := 0 to |current|
      invariant forall x :: x in retained <==> x in protectedImages + used || Current(current[..i], x)
    {
      CurrentStep(current, i);
      retained := retained + (set x <- current[i].images);
    }
    assert current[..|current|] == current;
    for i := 0 to |releases|
      invariant forall x :: x in retained <==>
                x in protectedImages + used || Current(current, x) || Listed(releases[..i], retainedKeys, true, x)
    {
      ListedStep(releases, retainedKeys, true, i);
      if KeyOf(releases[i]) !in retainedKeys { continue; }
      retained := retained + (set x <- releases[i].images);
    }
    assert releases[..|releases|] == releases;
  }

  lemma NothingListed(releases: seq<Release>, retained: set<string>)
    ensures forall inside, x :: !Listed(releases[..0], retained, inside, x)
    ensures forall x, current: seq<Release> :: !Current(current[..0], x)
  {
  }

  lemma CurrentStep(current: seq<Release>, i: nat)
    requires i < |current|
    ensures forall x :: Current(current[..i + 1], x) <==> Current(current[..i], x) || x in current[i].images
  {
    assert current[..i + 1] == current[..i] + [current[i]];
    forall x ensures Current(current[..i + 1], x) <==> Current(current[..i], x) || x in current[i].images {
      if Current(current[..i], x) {
        var c :| c in current[..i] && x in c.images;
        assert c in current[..i + 1];
      }
      if x in current[i].images { assert current[i] in current[..i + 1]; }
    }
  }

  lemma ListedStep(releases: seq<Release>, retained: set<string>, inside: bool, i: nat)
    requires i < |releases|
    ensures forall x :: Listed(releases[..i + 1], retained, inside, x) <==>
                        Listed(releases[..i], retained, inside, x) ||
                        ((KeyOf(releases[i]) in retained <==> inside) && x in releases[i].images)
  {
    hide KeyOf;
    forall x ensures Listed(releases[..i + 1], retained, inside, x) <==>
                     Listed(releases[..i], retained, inside, x) ||
                     ((KeyOf(releases[i]) in retained <==> inside) && x in releases[i].images)
    {
      var less, more := releases[..i], releases[..i + 1];
      if Listed(less, retained, inside, x) {
        var j :| 0 <= j < i && (KeyOf(less[j]) in retained <==> inside) && x in less[j].images;
        assert more[j] == less[j];
      }
      if (KeyOf(releases[i]) in retained <==> inside) && x in releases[i].images { assert more[i] == releases[i]; }
      if Listed(more, retained, inside, x) {
        var j :| 0 <= j < i + 1 && (KeyOf(more[j]) in retained <==> inside) && x in more[j].images;
        if j < i { assert less[j] == more[j]; }
      }
    }
  }

  /** `pruneCandidates`. */
  method PruneCandidates(releases: seq<Release>, retainedKeys: set<string>, retainedImages: set<string>,
                         protectedImages: set<string>)
    returns (out: seq<string>)
    ensures StrictlySorted(out)
    ensures forall x :: x in out <==>
      Listed(releases, retainedKeys, false, x) && x !in retainedImages &&
      x !in protectedImages
  {
    hide KeyOf, Listed, SortStrings, StrictlySorted, Sorting.Distinct;
    var candidates: set<string> := {};
    NothingListed(releases, retainedKeys);
    for i := 0 to |releases|
      invariant forall x :: x in candidates <==>
        Listed(releases[..i], retainedKeys, false, x) &&
        x !in retainedImages && x !in protectedImages
    {
      ListedStep(releases, retainedKeys, false, i);
      if KeyOf(releases[i]) in retainedKeys { continue; }
      candidates := candidates + (set x <- releases[i].images | x !in retainedImages && x !in protectedImages);
    }
    assert releases[..|releases|] == releases;
    out := [];
    var left := candidates;
    EmptyDistinct();
    while left != {}
      invariant left <= candidates && Sorting.Distinct(out)
      invariant forall x :: x in out <==> x in candidates && x !in left
      decreases left
    {
      var image :| image in left;
      left := left - {image};
      AppendDistinct(out, image);
      out := out + [image];
    }
    SortStringsSpec(out);
    out := SortStrings(out);
  }

  lemma EmptyDistinct()
    ensures Sorting.Distinct<string>([])
  {
  }

  lemma AppendDistinct(s: seq<string>, x: string)
    requires Sorting.Distinct(s) && x !in s
    ensures Sorting.Distinct(s + [x])
  {
  }

  // ---- removing ----

  /** `reclaimedBytesForRemoval`. */
  function Reclaimed(answer: seq<ImageDelete>, size: int): int {
    if exists d <- answer :: !Blank(d.deleted) then size else 0
  }

  method ReclaimedBytesForRemoval(answer: seq<ImageDelete>, size: int) returns (bytes: int)
    ensures bytes == Reclaimed(answer, size)
  {
    for i := 0 to |answer|
      invariant forall d <- answer[..i] :: Blank(d.deleted)
    {
      if !Blank(answer[i].deleted) { return size; }
    }
    assert answer[..|answer|] == answer;
    return 0;
  }

  /** What a run reports about the removals the engine carried out. */
  function ArtifactsOf(removals: seq<Removal>, images: seq<ImageState>): seq<Artifact> {
    if removals == [] then []
    else
      var last := removals[|removals| - 1];
      ArtifactsOf(removals[..|removals| - 1], images) +
      (if last.answer.Some? then [Artifact(last.image, Reclaimed(last.answer.value, SizeForImage(images, last.image)))]
       else [])
  }

  function TotalBytes(artifacts: seq<Artifact>): int {
    if artifacts == [] then 0 else TotalBytes(artifacts[..|artifacts| - 1]) + artifacts[|artifacts| - 1].bytes
  }

  function Asked(removals: seq<Removal>): (r: seq<string>)
    ensures |r| == |removals| && forall i :: 0 <= i < |r| ==> r[i] == removals[i].image
  {
    seq(|removals|, i requires 0 <= i < |removals| => removals[i].image)
  }

  /** What the removal loop has done after the first `n` candidates: it asks in
      order and at most once, and an image only counts as removed when the engine
      cannot resolve it any more. */
  ghost predicate Removing(candidates: seq<string>, n: nat, asked: seq<Removal>, removed: set<string>,
                           present: set<string>, clean: bool)
    requires n <= |candidates|
  {
    && StrictlySorted(Asked(asked))
    && (forall x <- Asked(asked) :: x in candidates[..n])
    && (forall x <- removed :: x in candidates[..n] && x !in present)
    && (clean ==> forall x <- candidates[..n] :: x in removed)
  }

  lemma RemovingStarts(candidates: seq<string>, present: set<string>)
    ensures Removing(candidates, 0, [], {}, present, true)
  {
  }

  lemma RemovingSkips(candidates: seq<string>, n: nat, asked: seq<Removal>, removed: set<string>, present: set<string>,
                      clean: bool)
    requires n < |candidates| && Removing(candidates, n, asked, removed, present, clean)
    ensures Removing(candidates, n + 1, asked, removed, present, false)
    ensures candidates[n] !in present ==> Removing(candidates, n + 1, asked, removed + {candidates[n]}, present, clean)
  {
    hide Asked, StrictlySorted;
    assert candidates[..n + 1] == candidates[..n] + [candidates[n]];
  }

  lemma RemovingAsks(candidates: seq<string>, n: nat, asked: seq<Removal>, removed: set<string>, present: set<string>,
                     clean: bool, removal: Removal, left: set<string>)
    requires n < |candidates| && StrictlySorted(candidates) && Removing(candidates, n, asked, removed, present, clean)
    requires removal.image == candidates[n] && left <= present && (removal.answer.Some? ==> candidates[n] !in left)
    ensures removal.answer.Some? ==> Removing(candidates, n + 1, asked + [removal], removed + {candidates[n]}, left,
                                              clean)
    ensures Removing(candidates, n + 1, asked + [removal], removed, left, false)
  {
    hide Less;
    assert candidates[..n + 1] == candidates[..n] + [candidates[n]];
    assert Asked(asked + [removal]) == Asked(asked) + [candidates[n]];
    forall x <- Asked(asked) ensures Less(x, candidates[n]) {
      var j :| 0 <= j < n && candidates[j] == x;
    }
  }

  /** One candidate more. */
  lemma RemovingOne(candidates: seq<string>, n: nat, asked: seq<Removal>, removed: set<string>, present: set<string>,
                    clean: bool, asks: seq<Removal>, answer: Option<seq<ImageDelete>>, fault: Option<Fault>,
                    left: set<string>)
    requires n < |candidates| && StrictlySorted(candidates) && Removing(candidates, n, asked, removed, present, clean)
    requires asks == [Removal(candidates[n], answer)] || (asks == [] && left == present)
    requires left <= present && (fault == None ==> candidates[n] !in left)
    requires asks != [] ==> (answer.Some? <==> fault == None)
    ensures Removing(candidates, n + 1, asked + asks, if fault == None then removed + {candidates[n]} else removed,
                     left, clean && fault == None)
  {
    hide Removing, StrictlySorted;
    if asks == [] {
      RemovingSkips(candidates, n, asked, removed, present, clean);
      assert asked + asks == asked;
    } else {
      RemovingAsks(candidates, n, asked, removed, present, clean, asks[0], left);
    }
  }

  lemma ArtifactsStep(removals: seq<Removal>, removal: Removal, images: seq<ImageState>)
    ensures ArtifactsOf(removals + [removal], images) ==
            ArtifactsOf(removals, images) +
            (if removal.answer.Some? then [Artifact(removal.image,
                                                    Reclaimed(removal.answer.value,
                                                              SizeForImage(images, removal.image)))] else [])
  {
    hide Reclaimed, SizeForImage;
    assert (removals + [removal])[..|removals|] == removals;
  }

  lemma TotalStep(artifacts: seq<Artifact>, a: Artifact)
    ensures TotalBytes(artifacts + [a]) == TotalBytes(artifacts) + a.bytes
  {
    assert (artifacts + [a])[..|artifacts|] == artifacts;
  }

  // ---- the manager ----

  /** What a run decided, asked for and met, beyond what it reports. */
  datatype Outcome = Outcome(
    current: seq<Release>, retained: set<string>, removed: set<string>, asked: seq<Removal>, faults: seq<Fault>)

  function Loaded(statePath: string, file: File): seq<Release> {
    if Blank(statePath) || !file.Saved? then [] else Normalized(file.releases)
  }

  /** The log once the current releases are recorded. */
  function LogOf(statePath: string, file: File, current: seq<Release>): seq<Release> {
    Upserted(Loaded(statePath, file), current)
  }

  ghost predicate FileSays(file: File, key: string, x: string) {
    file.Saved? && Says(file.releases, key, x)
  }

  /** The log after a run, in the terms of the file before it and of the desired state:
      it lists what either says, except for the removed images of releases that are not
      retained; what the desired state names is of the time of the run, anything else of
      the latest time in the file. */
  ghost predicate Records(log: seq<Release>, file: File, state: DesiredState, now: int, removed: set<string>,
                        retained: set<string>) {
    && (forall key, x :: Lists(log, key, x) <==>
          (FileSays(file, key, x) || NamedUnder(state, key, x)) && (key in retained || x !in removed))
    && (forall r <- log ::
          if exists x :: NamedUnder(state, KeyOf(r), x) then r.seenAt == now
          else file.Saved? && DatedBy(file.releases, KeyOf(r), r.seenAt))
  }

  lemma LoadedSays(statePath: string, file: File, key: string, x: string)
    requires !Blank(statePath)
    ensures Lists(Normalized(Loaded(statePath, file)), key, x) <==> FileSays(file, key, x)
  {
    hide Normalized, KeyOf, Trim, Says;
    if file.Saved? {
      NormalizedIsNormal(file.releases);
      NormalizedFixes(Normalized(file.releases));
      NormalizedLists(file.releases, key, x);
    } else {
      NothingNormalized();
    }
  }

  lemma LoadedTimes(statePath: string, file: File, q: Release)
    requires !Blank(statePath) && q in Normalized(Loaded(statePath, file))
    ensures file.Saved? && DatedBy(file.releases, KeyOf(q), q.seenAt)
  {
    hide Normalized, KeyOf, Trim, DatedBy;
    NothingNormalized();
    if file.Saved? {
      NormalizedIsNormal(file.releases);
      NormalizedFixes(Normalized(file.releases));
      NormalizedTimes(file.releases, q);
    }
  }

  lemma CurrentNames(current: seq<Release>, state: DesiredState, now: int)
    requires Describes(current, NeedsOf(state), now)
    ensures forall key, x :: Lists(current, key, x) <==> NamedUnder(state, key, x)
    ensures forall key :: HasKey(current, key) <==> exists x :: NamedUnder(state, key, x)
  {
    hide KeyOf, NamedUnder, NeedsOf, Needed, Trim;
    DescribesNamed(current, state, now);
    forall key, x ensures Lists(current, key, x) <==> NamedUnder(state, key, x) {
      if i :| 0 <= i < |current| && ListsIn(current[i], key, x) { assert current[i] in current; }
      if NamedUnder(state, key, x) {
        var i :| 0 <= i < |current| && KeyOf(current[i]) == key;
        assert current[i] in current && ListsIn(current[i], key, x);
      }
    }
    forall key ensures HasKey(current, key) <==> exists x :: NamedUnder(state, key, x) {
      if i :| 0 <= i < |current| && KeyOf(current[i]) == key {
        assert current[i] in current && current[i].images[0] in current[i].images;
      }
    }
  }

  lemma RunKeeps(statePath: string, file: File, state: DesiredState, now: int, current: seq<Release>,
                 removed: set<string>, retained: set<string>)
    requires !Blank(statePath) && Describes(current, NeedsOf(state), now)
    ensures Records(Dropped(LogOf(statePath, file, current), removed, retained), file, state, now, removed, retained)
  {
    hide Normalized, Upserted, Dropped, KeyOf, Trim, NamedUnder, NeedsOf, Needed, Lists, FileSays, DatedBy, HasKey,
         DistinctKeys;
    var loaded := Loaded(statePath, file);
    var log := Dropped(LogOf(statePath, file, current), removed, retained);
    CurrentNames(current, state, now);
    forall key, x
      ensures Lists(log, key, x) <==>
              (FileSays(file, key, x) || NamedUnder(state, key, x)) && (key in retained || x !in removed)
    {
      DroppedLists(Upserted(loaded, current), removed, retained, key, x);
      UpsertedLists(loaded, current, key, x);
      LoadedSays(statePath, file, key, x);
    }
    forall r | r in log
      ensures if HasKey(current, KeyOf(r)) then r.seenAt == now
              else file.Saved? && DatedBy(file.releases, KeyOf(r), r.seenAt)
    {
      TimesOf(loaded, current, removed, retained, r);
      if !HasKey(current, KeyOf(r)) {
        var q :| q in Normalized(loaded) && KeyOf(q) == KeyOf(r) && q.seenAt == r.seenAt;
        LoadedTimes(statePath, file, q);
      }
    }
  }

  /** The images that the run asks to remove. */
  ghost predicate Doomed(log: seq<Release>, current: seq<Release>, retained: set<string>,
                         containers: seq<ContainerState>, protectedImages: seq<string>, x: string) {
    Candidate(log, retained, current, TrimmedSet(protectedImages) + ImagesUsed(containers), x)
  }

  /** Nobody needs image `x`: no container, no protection, nothing in the desired
      state and no retained release. */
  ghost predicate Unneeded(log: seq<Release>, retained: set<string>, containers: seq<ContainerState>,
                           protectedImages: seq<string>, needs: seq<Need>, x: string)
  {
    && (forall c <- containers :: Blank(c.image) || Trim(c.image) != x)
    && (forall p <- protectedImages :: Blank(p) || Trim(p) != x)
    && (forall n <- needs :: Counts(n) ==> Trim(n.image) != x)
    && (forall i :: 0 <= i < |log| && KeyOf(log[i]) in retained ==> x !in log[i].images)
  }

  lemma DoomedIsUnneeded(log: seq<Release>, current: seq<Release>, retained: set<string>,
                         containers: seq<ContainerState>, protectedImages: seq<string>, needs: seq<Need>, now: int,
                         x: string)
    requires Describes(current, needs, now) && Doomed(log, current, retained, containers, protectedImages, x)
    ensures Unneeded(log, retained, containers, protectedImages, needs, x)
  {
    hide KeyOf, Trim, Counts, Describes;
    NeedsAreHeld(needs, now, log, retained, current, TrimmedSet(protectedImages) + ImagesUsed(containers), x);
  }

  /** A pass asks, in order and at most once, only for images that it may remove
      and that nobody needs; what it takes for removed is gone. */
  ghost predicate Sound(log: seq<Release>, outcome: Outcome, containers: seq<ContainerState>,
                        protectedImages: seq<string>, needs: seq<Need>, present: set<string>)
  {
    && StrictlySorted(Asked(outcome.asked))
    && (forall x <- Asked(outcome.asked) :: Doomed(log, outcome.current, outcome.retained, containers, protectedImages,
                                                   x))
    && (forall x <- Asked(outcome.asked) :: Unneeded(log, outcome.retained, containers, protectedImages, needs, x))
    && (forall x <- outcome.removed :: x !in present && Doomed(log, outcome.current, outcome.retained, containers,
                                                               protectedImages, x))
  }

  /** Every image that may go is gone. */
  ghost predicate Complete(log: seq<Release>, outcome: Outcome, containers: seq<ContainerState>,
                           protectedImages: seq<string>) {
    forall x :: Doomed(log, outcome.current, outcome.retained, containers, protectedImages, x) ==> x in outcome.removed
  }

  class Manager {
    const node: Machine
    const statePath: string
    const retainedPreviousReleases: int
    const protectedImages: seq<string>

    constructor (node: Machine, statePath: string, retainedPreviousReleases: int, protectedImages: seq<string>)
      ensures this.node == node && this.statePath == statePath && this.protectedImages == protectedImages
      ensures this.retainedPreviousReleases == if retainedPreviousReleases < 0 then 10 else retainedPreviousReleases
    {
      this.node, this.statePath, this.protectedImages := node, statePath, protectedImages;
      this.retainedPreviousReleases := if retainedPreviousReleases < 0 then DEFAULT_RETAINED_PREVIOUS
        else retainedPreviousReleases;
    }

    method LoadStore() returns (store: Log, err: Option<Fault>, warning: Option<Fault>)
      modifies node`faults
      ensures fresh(store)
      ensures err == None ==> store.releases == Loaded(statePath, node.file) && node.faults == old(node.faults)
      ensures err != None ==> err == Some(ReadState) && node.faults == old(node.faults) + [ReadState]
      ensures warning == if err == None && !Blank(statePath) && node.file.Corrupt? then Some(CorruptState) else None
    {
      err, warning := None, None;
      store := new Log([]);
      if Blank(statePath) { return; }
      var ok := node.Attempt(ReadState);
      if !ok {
        err := Some(ReadState);
        return;
      }
      match node.file {
        case Absent =>
        case Corrupt => warning := Some(CorruptState);
        case Saved(releases) =>
          store := new Log(releases);
          store.Normalize();
      }
    }

    method SaveStore(store: Log) returns (err: Option<Fault>)
      modifies node`faults, node`file
      ensures err == None ==> node.faults == old(node.faults)
      ensures err != None ==> err == Some(SaveState) && node.faults == old(node.faults) + [SaveState]
      ensures node.file == if Blank(statePath) || err != None then old(node.file) else Saved(store.releases)
    {
      err := None;
      if Blank(statePath) { return; }
      var ok := node.WriteFile(store.releases);
      if !ok { err := Some(SaveState); }
    }

    /** What the loop asks the engine about one candidate: whether it is there, unless
        it was listed, and if so to remove it.  It is gone unless there is a fault. */
    method RemoveOne(image: string, listed: bool)
      returns (answer: Option<seq<ImageDelete>>, fault: Option<Fault>, ghost asks: seq<Removal>)
      modifies node`faults, node`present, node`images, node`removals
      ensures node.removals == old(node.removals) + asks
      ensures node.faults == old(node.faults) + if fault.Some? then [fault.value] else []
      ensures asks == [Removal(image, answer)] || (asks == [] && answer == None && node.present == old(node.present))
      ensures if fault == Some(InspectImage(image)) then !listed && asks == []
              else asks == [] <==> !listed && image !in old(node.present)
      ensures fault in {None, Some(InspectImage(image)), Some(Fault.RemoveImage(image))}
      ensures asks != [] ==> (answer.Some? <==> fault == None)
      ensures node.present <= old(node.present) && (fault == None ==> image !in node.present)
    {
      answer, fault, asks := None, None, [];
      if !listed {
        var exists_ := node.ImageExists(image);
        if exists_.None? { return None, Some(InspectImage(image)), []; }
        if !exists_.value { return; }
      }
      answer := node.RemoveImage(image);
      asks := [Removal(image, answer)];
      if answer.None? { fault := Some(Fault.RemoveImage(image)); }
    }

    /** The removal loop of `Run`. */
    method RemoveImages(candidates: seq<string>, used: set<string>, images: seq<ImageState>)
      returns (artifacts: seq<Artifact>, bytes: int, removed: set<string>, firstErr: Option<Fault>,
               ghost asked: seq<Removal>, ghost faults: seq<Fault>)
      requires StrictlySorted(candidates) && forall x <- candidates :: x !in used
      modifies node`faults, node`present, node`images, node`removals
      ensures node.removals == old(node.removals) + asked && node.faults == old(node.faults) + faults
      ensures Removing(candidates, |candidates|, asked, removed, node.present, firstErr == None)
      ensures artifacts == ArtifactsOf(asked, images) && bytes == TotalBytes(artifacts)
      ensures firstErr == FirstFault(faults)
      ensures firstErr == None || firstErr.value.InspectImage? || firstErr.value.RemoveImage?
    {
      hide StrictlySorted, Removing, ArtifactsOf, TotalBytes, Reclaimed, SizeForImage, SizesIn, FirstFault;
      var sizes := ImageSizeIndex(images);
      artifacts, bytes, removed, firstErr := [], 0, {}, None;
      asked, faults := [], [];
      RemovingStarts(candidates, node.present);
      NoArtifacts(images);
      NoFault();
      for i := 0 to |candidates|
        invariant node.removals == old(node.removals) + asked && node.faults == old(node.faults) + faults
        invariant Removing(candidates, i, asked, removed, node.present, firstErr == None)
        invariant artifacts == ArtifactsOf(asked, images) && bytes == TotalBytes(artifacts)
        invariant firstErr == FirstFault(faults)
        invariant firstErr == None || firstErr.value.InspectImage? || firstErr.value.RemoveImage?
      {
        var image := candidates[i];
        if image in used { continue; }
        ghost var present := node.present;
        var answer, fault;
        ghost var asks;
        answer, fault, asks := RemoveOne(image, image in sizes);
        RemovingOne(candidates, i, asked, removed, present, firstErr == None, asks, answer, fault, node.present);
        ArtifactsStep(asked, Removal(image, answer), images);
        assert asks == [] ==> asked + asks == asked;
        asked := asked + asks;
        if fault.Some? {
          FaultAdded(faults, fault.value);
          faults := faults + [fault.value];
          if firstErr == None { firstErr := fault; }
          continue;
        }
        removed := removed + {image};
        if answer.None? { continue; }
        var size := if image in sizes then sizes[image] else 0;
        IndexedSize(sizes, images, image);
        var reclaimed := ReclaimedBytesForRemoval(answer.value, size);
        TotalStep(artifacts, Artifact(image, reclaimed));
        bytes := bytes + reclaimed;
        artifacts := artifacts + [Artifact(image, reclaimed)];
      }
    }

    /** What `Run` works out between listing and removing. */
    method Plan(releases: seq<Release>, containers: seq<ContainerState>, current: seq<Release>)
      returns (used: set<string>, retainedKeys: set<string>, candidates: seq<string>)
      ensures RetainedBy(retainedKeys, releases, current, retainedPreviousReleases + 1)
      ensures StrictlySorted(candidates) && forall x <- candidates :: x !in used
      ensures forall x :: x in candidates <==> Doomed(releases, current, retainedKeys, containers, protectedImages, x)
    {
      hide StrictlySorted, RetainedBy, Candidate, Keeps, Holds, Listed, TrimmedSet, ImagesUsed;
      var protected_ := StringSet(protectedImages);
      used := UsedContainerImages(containers);
      retainedKeys := RetainedReleaseKeys(releases, current, retainedPreviousReleases + 1);
      RetainedIs(retainedKeys, releases, current, retainedPreviousReleases + 1);
      var retainedImages := RetainedImageRefs(releases, retainedKeys, current, protected_, used);
      candidates := PruneCandidates(releases, retainedKeys, retainedImages, protected_);
      CandidatesAreDoomed(releases, current, retainedKeys, containers, protectedImages, retainedImages, candidates);
    }

    /** The part of `Run` that follows the listings. */
    method Clean(store: Log, current: seq<Release>, containers: seq<ContainerState>, images: seq<ImageState>,
                 ghost needs: seq<Need>, ghost now: int)
      returns (retainedCount: nat, artifacts: seq<Artifact>, bytes: int, err: Option<Fault>, ghost outcome: Outcome)
      requires Describes(current, needs, now) && DistinctKeys(store.releases) && Normal(store.releases)
      modifies node, store
      ensures node.containers == old(node.containers) && outcome.current == current
      ensures node.removals == old(node.removals) + outcome.asked && node.faults == old(node.faults) + outcome.faults
      ensures err == FirstFault(outcome.faults)
      ensures err == None || err.value.InspectImage? || err.value.RemoveImage? || err.value.SaveState? ||
        err.value.InspectLogs?
      ensures RetainedBy(outcome.retained, old(store.releases), current, retainedPreviousReleases + 1)
      ensures Sound(old(store.releases), outcome, containers, protectedImages, needs, node.present)
      ensures err == None ==> Complete(old(store.releases), outcome, containers, protectedImages)
      ensures artifacts == ArtifactsOf(outcome.asked, images) && bytes == TotalBytes(artifacts)
      ensures Blank(statePath) ==> node.file == old(node.file)
      ensures !Blank(statePath) ==> node.file == Saved(store.releases) || (node.file == old(node.file) && err != None)
      ensures store.releases == Dropped(old(store.releases), outcome.removed, outcome.retained)
      ensures retainedCount == |outcome.retained|
    {
      hide StrictlySorted, Removing, Describes, RetainedBy,
           Candidate, Dropped, ArtifactsOf, TotalBytes, Trim, Sound, Complete, Normal, DistinctKeys, Doomed, FirstFault,
           Asked;
      ghost var log := store.releases;
      var used, retainedKeys, candidates := Plan(store.releases, containers, current);
      retainedCount := |retainedKeys|;
      var removed, firstErr;
      ghost var asked, faults;
      artifacts, bytes, removed, firstErr, asked, faults := RemoveImages(candidates, used, images);
      outcome := Outcome(current, retainedKeys, removed, asked, faults);
      RemovingEnds(log, outcome, containers, protectedImages, needs, now, candidates, node.present, firstErr == None);
      store.DropRemovedImages(removed, retainedKeys);
      DroppedNothing(log, retainedKeys);
      var saveErr := SaveStore(store);
      var ok := node.Attempt(InspectLogs);
      FirstFaultOf(faults, saveErr, ok);
      faults := faults + (if saveErr == None then [] else [SaveState]) + (if ok then [] else [InspectLogs]);
      if firstErr == None { firstErr := saveErr; }
      if !ok && firstErr == None { firstErr := Some(InspectLogs); }
      err := firstErr;
      FaultsApart(log, outcome, faults, containers, protectedImages, needs, node.present);
      outcome := outcome.(faults := faults);
    }

    /** One pass of disk care.  `started` tells a pass that got as far as looking
        for images to remove from one that gave up on the way.  A pass asks only
        for images that nobody needs, each at most once; it reports exactly the
        removals that the engine carried out; its log drops only images that are
        gone; and if it reports no error, every image that could go is gone. */
    method Run(desired: Option<DesiredState>, now: int)
      returns (status: Status, err: Option<Fault>, ghost started: bool, ghost outcome: Outcome)
      modifies node
      ensures node.containers == old(node.containers)
      ensures node.removals == old(node.removals) + outcome.asked && node.faults == old(node.faults) + outcome.faults
      ensures err == FirstFault(outcome.faults)
      ensures desired == None || err in {Some(ReadState), Some(Fault.ListContainers), Some(Fault.ListImages)} <==>
        !started
      ensures !started ==> outcome.asked == [] && outcome.removed == {} && node.file == old(node.file)
      ensures started ==> Describes(outcome.current, NeedsOf(desired.value), now)
      ensures started ==> RetainedBy(outcome.retained, LogOf(statePath, old(node.file), outcome.current),
                                     outcome.current, retainedPreviousReleases + 1)
      ensures started ==> Sound(LogOf(statePath, old(node.file), outcome.current), outcome, node.containers,
                                protectedImages,
                                NeedsOf(desired.value), node.present)
      // no image that the desired state names is asked for
      ensures started ==> forall key, x :: NamedUnder(desired.value, key, x) ==>
        x !in Asked(outcome.asked) && x !in outcome.removed
      ensures started && err == None ==>
        Complete(LogOf(statePath, old(node.file), outcome.current), outcome, node.containers, protectedImages)
      ensures status.artifacts == ArtifactsOf(outcome.asked, old(node.images))
      ensures status.reclaimedBytes == TotalBytes(status.artifacts)
      ensures started && !Blank(statePath) ==>
        || node.file == Saved(Dropped(LogOf(statePath, old(node.file), outcome.current), outcome.removed,
                                      outcome.retained))
        || (node.file == old(node.file) && err != None)
      // what the file says, in the terms of the file before and of the desired state
      ensures started && !Blank(statePath) && err == None ==>
        && node.file.Saved?
        && Records(node.file.releases, old(node.file), desired.value, now, outcome.removed, outcome.retained)
      ensures Blank(statePath) ==> node.file == old(node.file)
      ensures started ==> status.retainedCount == |outcome.retained|
      ensures status.lastError ==
        if err != None then err
        else if desired != None && !Blank(statePath) && old(node.file).Corrupt? then Some(CorruptState) else None
    {
      hide StrictlySorted, Removing, Describes, RetainedBy, Candidate, Normalized, Upserted,
           Dropped, ArtifactsOf, TotalBytes, NeedsOf, TrimmedSet, ImagesUsed, Trim, Sound, Complete, Normal,
           DistinctKeys, Doomed, NamedUnder, Asked, Records;
      status, err, started := Status(0, 0, [], None), None, false;
      outcome := Outcome([], {}, {}, [], []);
      NoArtifacts(node.images);
      if desired == None { return; }
      ghost var file := node.file;
      var store, loadErr, warning := LoadStore();
      status := status.(lastError := warning);
      if loadErr != None {
        err, outcome := loadErr, outcome.(faults := [ReadState]);
        status := status.(lastError := err);
        return;
      }
      var current := ReleasesFromDesired(desired.value, now);
      DescribedKeys(Loaded(statePath, file), current, NeedsOf(desired.value), now);
      store.Upsert(current);
      var ok := node.Attempt(Fault.ListContainers);
      if !ok {
        err, outcome := Some(Fault.ListContainers), outcome.(faults := [Fault.ListContainers]);
        status := status.(lastError := err);
        return;
      }
      var containers := node.containers;
      ok := node.Attempt(Fault.ListImages);
      if !ok {
        err, outcome := Some(Fault.ListImages), outcome.(faults := [Fault.ListImages]);
        status := status.(lastError := err);
        return;
      }
      started := true;
      var retainedCount, artifacts, bytes;
      retainedCount, artifacts, bytes, err, outcome := Clean(store, current, containers, node.images,
                                                             NeedsOf(desired.value), now);
      NamedIsSafe(desired.value, now, LogOf(statePath, file, outcome.current), outcome, containers, protectedImages,
                  node.present);
      if !Blank(statePath) {
        RunKeeps(statePath, file, desired.value, now, current, outcome.removed, outcome.retained);
      }
      status := Status(retainedCount, bytes, artifacts, status.lastError);
      if err != None { status := status.(lastError := err); }
    }

    /** Two passes for the same desired state, with any containers that come and go in
        between.  If the first one reports no error, the second one asks only for
        images of past releases that lose their place between the two clock
        readings, and for images that came free; if that one reports no error
        either, each of the former and each left over is gone or held.  No clock is
        assumed; when it moves on and nothing comes free, nothing is asked for.  In a
        valid state without NUL losing one's place is being superseded. */
    method RunAgain(desired: DesiredState, now: int, later: int, others: seq<ContainerState>,
                    ghost sanitize: string -> string)
      returns (ghost firstErr: Option<Fault>, ghost secondErr: Option<Fault>, ghost first: Outcome,
               ghost second: Outcome, ghost between: File)
      modifies node
      ensures firstErr == None ==> Describes(first.current, NeedsOf(desired), now)
      ensures firstErr == None ==>
        var log, keep := LogOf(statePath, old(node.file), first.current), retainedPreviousReleases + 1;
        forall x :: x in Asked(second.asked) || x in second.removed ==>
          || Displaced(log, first.current, later, keep, x)
          || CameFree(protectedImages, old(node.containers), others, x)
      ensures firstErr == None && secondErr == None ==>
        var log, keep := LogOf(statePath, old(node.file), first.current), retainedPreviousReleases + 1;
        forall x ::
          Displaced(log, first.current, later, keep, x) || LeftOver(log, first.retained, first.removed, x) ==>
          || x in second.removed
          || Held(LogOf(statePath, between, second.current), second, others, protectedImages, x)
      ensures
        && firstErr == None && ClockMovesOn(Loaded(statePath, old(node.file)), NeedsOf(desired), now, later)
        && (forall x :: !CameFree(protectedImages, old(node.containers), others, x)) ==>
        second.asked == [] && second.removed == {}
      ensures firstErr == None && EnvironmentsOk(desired.environments, sanitize) && NulFree(desired) ==>
        var log, keep := LogOf(statePath, old(node.file), first.current), retainedPreviousReleases + 1;
        forall x :: Displaced(log, first.current, later, keep, x) <==> Superseded(log, first.current, later, keep, x)
    {
      hide Describes, Sound, Complete, RetainedBy, Doomed, LogOf, Loaded, Dropped, Upserted, ArtifactsOf, TotalBytes,
           NeedsOf, Displaced, ClockMovesOn, Held, Asked, LeftOver, CameFree, Superseded, EnvironmentsOk, NulFree;
      ghost var file := node.file;
      var status1, err1, started1, outcome1 := Run(Some(desired), now);
      ghost var listed, present := node.containers, node.present;
      between := node.file;
      node.containers := others;
      var status2, err2, started2, outcome2 := Run(Some(desired), later);
      firstErr, secondErr, first, second := err1, err2, outcome1, outcome2;
      NobodyAsked();
      if err1 == None && started2 {
        Settles(statePath, file, between, first, second, listed, others, protectedImages,
                retainedPreviousReleases + 1, NeedsOf(desired), now, later, present);
        OnlyDisplaced(statePath, file, between, first, second, listed, others, protectedImages,
                      retainedPreviousReleases + 1, NeedsOf(desired), now, later, node.present);
      }
      if err1 == None && EnvironmentsOk(desired.environments, sanitize) && NulFree(desired) {
        ValidatedSuperseded(desired, sanitize, statePath, file, first.current, now, later,
                            retainedPreviousReleases + 1);
      }
    }
  }

  lemma ValidatedSuperseded(state: DesiredState, sanitize: string -> string, statePath: string, file: File,
                            current: seq<Release>, now: int, later: int, keep: int)
    requires EnvironmentsOk(state.environments, sanitize) && NulFree(state) && Describes(current, NeedsOf(state), now)
    ensures forall x :: Displaced(LogOf(statePath, file, current), current, later, keep, x) <==>
                        Superseded(LogOf(statePath, file, current), current, later, keep, x)
  {
    hide Describes, Upserted, Loaded, NeedsOf, EnvironmentsOk, NulFree, DistinctKeys, OneCurrent, Displaced, Superseded,
         Normal;
    var log := LogOf(statePath, file, current);
    DescribedKeys(Loaded(statePath, file), current, NeedsOf(state), now);
    forall i: nat | i < |log| ensures OneCurrent(log, current, i) {
      ValidatedOneCurrent(state, sanitize, current, now, log, i);
    }
    forall x ensures Displaced(log, current, later, keep, x) <==> Superseded(log, current, later, keep, x) {
      DisplacedIsSuperseded(log, current, later, keep, x);
    }
  }

  /** A container had the image, and no container has it or protects it now. */
  ghost predicate CameFree(protectedImages: seq<string>, before: seq<ContainerState>, after: seq<ContainerState>,
                           x: string) {
    x in ImagesUsed(before) && x !in ImagesUsed(after) && x !in TrimmedSet(protectedImages)
  }

  /** A sound pass asks for nothing that the desired state names. */
  lemma NamedIsSafe(state: DesiredState, now: int, log: seq<Release>, outcome: Outcome, containers: seq<ContainerState>,
                    protectedImages: seq<string>, present: set<string>)
    requires Describes(outcome.current, NeedsOf(state), now)
    requires Sound(log, outcome, containers, protectedImages, NeedsOf(state), present)
    ensures forall key, x :: NamedUnder(state, key, x) ==> x !in Asked(outcome.asked) && x !in outcome.removed
  {
    hide Trim, NeedsOf, NamedUnder, Describes, StrictlySorted, Doomed, Counts, Asked;
    forall key, x | NamedUnder(state, key, x) ensures x !in Asked(outcome.asked) && x !in outcome.removed {
      NamedIsNeeded(state, key, x);
      if x in outcome.removed {
        DoomedIsUnneeded(log, outcome.current, outcome.retained, containers, protectedImages, NeedsOf(state), now, x);
      }
    }
  }

  lemma NobodyAsked()
    ensures Asked([]) == []
  {
  }

  /** A container, a protection, the desired state or a retained release needs
      image `x`. */
  ghost predicate Held(log: seq<Release>, outcome: Outcome, containers: seq<ContainerState>,
                       protectedImages: seq<string>, x: string) {
    Holds(log, outcome.retained, outcome.current, TrimmedSet(protectedImages) + ImagesUsed(containers), x)
  }

  /** What the second of two passes may remove. */
  ghost predicate DoomedAgain(statePath: string, file: File, between: File, first: Outcome, second: Outcome,
                              others: seq<ContainerState>, protectedImages: seq<string>, keep: int, later: int)
  {
    forall x :: Doomed(LogOf(statePath, between, second.current), second.current, second.retained, others,
                       protectedImages, x) <==>
                && (Displaced(LogOf(statePath, file, first.current), first.current, later, keep, x) ||
                    LeftOver(LogOf(statePath, file, first.current), first.retained, first.removed, x))
                && !Held(LogOf(statePath, between, second.current), second, others, protectedImages, x)
  }

  /** What else it may remove came free. */
  ghost predicate RestCameFree(statePath: string, file: File, between: File, first: Outcome, second: Outcome,
                               listed: seq<ContainerState>, others: seq<ContainerState>, protectedImages: seq<string>,
                               keep: int, later: int)
  {
    forall x :: Doomed(LogOf(statePath, between, second.current), second.current, second.retained, others,
                       protectedImages, x) ==>
                || Displaced(LogOf(statePath, file, first.current), first.current, later, keep, x)
                || CameFree(protectedImages, listed, others, x)
  }

  lemma OnlyDisplaced(statePath: string, file: File, between: File, first: Outcome, second: Outcome,
                      listed: seq<ContainerState>, others: seq<ContainerState>, protectedImages: seq<string>, keep: int,
                      needs: seq<Need>, now: int, later: int, present: set<string>)
    requires Describes(first.current, needs, now)
    requires DoomedAgain(statePath, file, between, first, second, others, protectedImages, keep, later)
    requires RestCameFree(statePath, file, between, first, second, listed, others, protectedImages, keep, later)
    requires Sound(LogOf(statePath, between, second.current), second, others, protectedImages, needs, present)
    ensures forall x :: x in Asked(second.asked) || x in second.removed ==>
              || Displaced(LogOf(statePath, file, first.current), first.current, later, keep, x)
              || CameFree(protectedImages, listed, others, x)
    ensures Complete(LogOf(statePath, between, second.current), second, others, protectedImages) ==>
      forall x ::
        || Displaced(LogOf(statePath, file, first.current), first.current, later, keep, x)
        || LeftOver(LogOf(statePath, file, first.current), first.retained, first.removed, x) ==>
        x in second.removed || Held(LogOf(statePath, between, second.current), second, others, protectedImages, x)
    ensures
      && ClockMovesOn(Loaded(statePath, file), needs, now, later)
      && (forall x :: !CameFree(protectedImages, listed, others, x)) ==>
      second.asked == [] && second.removed == {}
  {
    hide Doomed, Unneeded, Displaced, Held, Describes, Upserted, ClockMovesOn, Normalized, Loaded, LeftOver, CameFree;
    HasMember(Asked(second.asked));
    if ClockMovesOn(Loaded(statePath, file), needs, now, later) {
      LoadedSaved(statePath, file);
      DiskCareConverges(Loaded(statePath, file), first.current, needs, now, later, keep);
    }
  }

  lemma LoadedSaved(statePath: string, file: File)
    ensures Normal(Loaded(statePath, file)) && Normalized(Loaded(statePath, file)) == Loaded(statePath, file)
    ensures file.Saved? && Normal(file.releases) && !Blank(statePath) ==> Loaded(statePath, file) == file.releases
  {
    hide KeyOf, Trim, NormalRelease;
    if file.Saved? {
      NormalizedIsNormal(file.releases);
    }
    NormalizedFixes(Loaded(statePath, file));
    if file.Saved? && Normal(file.releases) { NormalizedFixes(file.releases); }
  }

  /** With no state file the log is just the current releases, all retained. */
  lemma NothingPast(current: seq<Release>, needs: seq<Need>, now: int, retained: set<string>, keep: int)
    requires Describes(current, needs, now) && RetainedBy(retained, Upserted([], current), current, keep)
    ensures forall x :: !Listed(Upserted([], current), retained, false, x)
  {
    hide KeyOf, Upserted, HasKey, Needed, NormalRelease, Recent;
    UpsertedSpec([], current);
    var log := Upserted([], current);
    forall i | 0 <= i < |log| ensures KeyOf(log[i]) in retained {
      assert UpToDate(log[i], Normalized([]), current);
      assert Keeps(log, current, keep, KeyOf(log[i]));
    }
  }

  lemma Settles(statePath: string, file: File, between: File, first: Outcome, second: Outcome,
                listed: seq<ContainerState>, others: seq<ContainerState>, protectedImages: seq<string>, keep: int,
                needs: seq<Need>, now: int, later: int, present: set<string>)
    requires Describes(first.current, needs, now) && Describes(second.current, needs, later)
    requires RetainedBy(first.retained, LogOf(statePath, file, first.current), first.current, keep)
    requires RetainedBy(second.retained, LogOf(statePath, between, second.current), second.current, keep)
    requires Complete(LogOf(statePath, file, first.current), first, listed, protectedImages)
    requires !Blank(statePath) ==>
      between == Saved(Dropped(LogOf(statePath, file, first.current), first.removed, first.retained))
    ensures DoomedAgain(statePath, file, between, first, second, others, protectedImages, keep, later)
    ensures RestCameFree(statePath, file, between, first, second, listed, others, protectedImages, keep, later)
  {
    hide KeyOf, Upserted, Normalized, Dropped, RetainedBy, Describes, TrimmedSet, ImagesUsed, Trim, Normal,
         Unneeded, Displaced, Holds, Listed;
    if Blank(statePath) {
      NothingPast(first.current, needs, now, first.retained, keep);
      NothingPast(second.current, needs, later, second.retained, keep);
      NobodyDisplaced(first.current, needs, now, later, keep);
    } else {
      var old_ := Loaded(statePath, file);
      var log := Upserted(old_, first.current);
      LoadedSaved(statePath, file);
      LoadedSaved(statePath, between);
      DescribedKeys(old_, first.current, needs, now);
      DroppedNormal(log, first.removed, first.retained);
      SecondRunCandidates(old_, first.current, second.current, needs, now, later, keep, first.retained, second.retained,
                          TrimmedSet(protectedImages) + ImagesUsed(listed),
                          TrimmedSet(protectedImages) + ImagesUsed(others), first.removed);
    }
  }

  lemma NobodyDisplaced(current: seq<Release>, needs: seq<Need>, now: int, later: int, keep: int)
    requires Describes(current, needs, now)
    ensures forall x :: !Displaced(Upserted([], current), current, later, keep, x)
  {
    hide KeyOf, Upserted, Needed, NormalRelease, LosesPlace, Normalized;
    NothingNormalized();
    DiskCareConverges([], current, needs, now, later, keep);
  }

  lemma NothingNormalized()
    ensures Normalized([]) == []
  {
  }

  lemma FirstFaultOf(faults: seq<Fault>, saveErr: Option<Fault>, ok: bool)
    requires saveErr == None || saveErr == Some(SaveState)
    ensures FirstFault(faults + (if saveErr == None then [] else [SaveState]) + (if ok then [] else [InspectLogs])) ==
            if FirstFault(faults) != None then FirstFault(faults)
            else if saveErr != None then saveErr
            else if ok then None else Some(InspectLogs)
  {
  }

  /** What a run met on its way does not bear on what it asked for. */
  lemma FaultsApart(log: seq<Release>, outcome: Outcome, faults: seq<Fault>, containers: seq<ContainerState>,
                    protectedImages: seq<string>, needs: seq<Need>, present: set<string>)
    requires Sound(log, outcome, containers, protectedImages, needs, present)
    ensures Sound(log, outcome.(faults := faults), containers, protectedImages, needs, present)
    ensures Complete(log, outcome, containers, protectedImages) ==>
      Complete(log, outcome.(faults := faults), containers, protectedImages)
  {
    hide StrictlySorted, Doomed, Unneeded, Asked;
  }

  lemma NoFault()
    ensures FirstFault([]) == None
  {
  }

  lemma FaultAdded(faults: seq<Fault>, fault: Fault)
    ensures FirstFault(faults + [fault]) == if FirstFault(faults) == None then Some(fault) else FirstFault(faults)
  {
  }

  lemma NoArtifacts(images: seq<ImageState>)
    ensures ArtifactsOf([], images) == [] && TotalBytes([]) == 0
  {
  }

  lemma DescribedKeys(loaded: seq<Release>, current: seq<Release>, needs: seq<Need>, now: int)
    requires Describes(current, needs, now)
    ensures DistinctKeys(current)
    ensures DistinctKeys(Upserted(loaded, current)) && Normal(Upserted(loaded, current))
  {
    hide KeyOf, NormalRelease, Needed, Upserted, UpToDate;
    UpsertedSpec(loaded, current);
  }

  lemma RetainedIs(retained: set<string>, log: seq<Release>, current: seq<Release>, keep: int)
    requires forall key :: key in retained <==> Keeps(log, current, keep, key)
    ensures RetainedBy(retained, log, current, keep)
  {
    hide Keeps;
  }

  lemma CandidatesAreDoomed(log: seq<Release>, current: seq<Release>, retained: set<string>,
                            containers: seq<ContainerState>, protectedImages: seq<string>, retainedImages: set<string>,
                            candidates: seq<string>)
    requires forall x :: x in retainedImages <==> Holds(log, retained, current,
                                                        TrimmedSet(protectedImages) + ImagesUsed(containers), x)
    requires forall x :: x in candidates <==>
      Listed(log, retained, false, x) && x !in retainedImages &&
      x !in TrimmedSet(protectedImages)
    ensures forall x :: x in candidates <==> Doomed(log, current, retained, containers, protectedImages, x)
    ensures forall x <- candidates :: x !in ImagesUsed(containers)
  {
    hide Listed, Current, TrimmedSet, ImagesUsed;
  }

  lemma RemovingEnds(log: seq<Release>, outcome: Outcome, containers: seq<ContainerState>, protectedImages: seq<string>,
                     needs: seq<Need>, now: int, candidates: seq<string>, present: set<string>, clean: bool)
    requires Removing(candidates, |candidates|, outcome.asked, outcome.removed, present, clean) &&
      Describes(outcome.current, needs, now)
    requires forall x :: x in candidates <==> Doomed(log, outcome.current, outcome.retained, containers,
                                                     protectedImages, x)
    ensures Sound(log, outcome, containers, protectedImages, needs, present)
    ensures clean ==> Complete(log, outcome, containers, protectedImages)
  {
    hide Doomed, StrictlySorted, Unneeded, Describes, Asked;
    assert candidates[..|candidates|] == candidates;
    forall x | x in Asked(outcome.asked)
      ensures Unneeded(log, outcome.retained, containers, protectedImages, needs, x)
    {
      DoomedIsUnneeded(log, outcome.current, outcome.retained, containers, protectedImages, needs, now, x);
    }
  }

  lemma {:induction false} WithoutNothing(images: seq<string>)
    ensures Without(images, {}) == images
  {
    if images != [] { WithoutNothing(images[1..]); }
  }

  lemma {:induction false} DroppedNothing(log: seq<Release>, retained: set<string>)
    requires Normal(log)
    ensures Dropped(log, {}, retained) == log
  {
    hide KeyOf, Trim, StrictlySorted;
    if log != [] {
      WithoutNothing(log[0].images);
      assert log[0] in log;
      assert forall r <- log[1..] :: r in log;
      DroppedNothing(log[1..], retained);
      assert log == [log[0]] + log[1..];
    }
  }
}
