/** The reconciler: drives the host's containers to the desired services, one
    service at a time, and moves web traffic to a service's container before it
    drains the containers that served it so far. */
module Reconcilers {
  import opened Text
  import opened ScopedKeys
  import opened DesiredStates
  import opened EndpointTables
  import opened Hosts
  import opened WebEndpoints
  import Routing

  datatype Result = Result(created: nat, updated: nat, removed: nat, untouched: nat) {
    function Add(other: Result): Result {
      Result(created + other.created, updated + other.updated, removed + other.removed, untouched + other.untouched)
    }
  }

  const NOTHING := Result(0, 0, 0, 0)

  /** What `specForService` derives from a service: the container to run. */
  datatype Spec = Spec(name: string, hash: string, image: string)

  function Fresh(rs: RuntimeService, spec: Spec): Container {
    Container(spec.name, rs.environmentName, rs.serviceName, rs.serviceKind, spec.hash, "", true)
  }

  function ServiceKeyOf(rs: RuntimeService): string {
    ServiceKey(rs.environmentName, rs.serviceName)
  }

  /** The first listed container with the wanted hash. */
  function FirstMatch(existing: seq<Container>, hash: string): (r: Option<Container>)
    ensures r.Some? ==> r.value in existing && r.value.hash == hash
  {
    if existing == [] then None
    else if existing[0].hash == hash then Some(existing[0])
    else FirstMatch(existing[1..], hash)
  }

  /** The container that serves `rs` after a successful pass: the first match,
      running, or a fresh one. */
  function Chosen(existing: seq<Container>, rs: RuntimeService, spec: Spec): Container {
    match FirstMatch(existing, spec.hash)
    case Some(c) => c.(running := true)
    case None => Fresh(rs, spec)
  }

  /** The listed containers of service `key`; containers without a service label
      are skipped. */
  function ExistingOf(list: seq<Container>, key: string): seq<Container> {
    if list == [] then []
    else (if list[0].service != "" && KeyOf(list[0]) == key then [list[0]] else []) + ExistingOf(list[1..], key)
  }

  /** `isPersistentEnvoyContainer`. */
  predicate IsPersistentEnvoy(c: Container, protectedNames: seq<string>) {
    Trim(c.system) == SYSTEM_ENVOY && Protects(protectedNames, c.name)
  }

  /** No protected names stands for Envoy's default name. */
  predicate Protects(protectedNames: seq<string>, name: string) {
    || (exists p <- protectedNames :: Trim(name) == Trim(p))
    || (protectedNames == [] && Trim(name) == DEFAULT_ENVOY_NAME)
  }

  /** Envoy's own container, by its label and name. */
  ghost predicate RunsEnvoy(c: Container, protectedNames: seq<string>) {
    && Trim(c.system) == "envoy"
    && if protectedNames == [] then Trim(c.name) == "devopsellence-envoy"
       else exists p <- protectedNames :: Trim(p) == Trim(c.name)
  }

  /** What is left is of a service with one of these keys, has no name, or is
      Envoy's. */
  ghost predicate Swept(now: map<string, Container>, keys: set<string>, protectedNames: seq<string>) {
    forall n <- now :: KeyOf(now[n]) in keys || now[n].name == "" || RunsEnvoy(now[n], protectedNames)
  }

  /** Envoy's containers, and those without a name, are as they were. */
  ghost predicate EnvoyStays(pre: map<string, Container>, now: map<string, Container>, keys: set<string>,
                             protectedNames: seq<string>) {
    forall n <- pre :: KeyOf(pre[n]) !in keys && (pre[n].name == "" || RunsEnvoy(pre[n], protectedNames)) ==>
      n in now && now[n] == pre[n]
  }

  // ---- safety of a run, as a property of its trace ----

  /** Position `p` completes a cutover: the address the engine reported for
      `name` (after a successful probe, when one is due) became the endpoint of
      `cluster`, and the route check passed. */
  ghost predicate CutOverAt(events: seq<Event>, name: string, cluster: string, probed: bool, p: nat) {
    var back := if probed then 2 else 1;
    && back <= p && p + 1 < |events|
    && events[p].Point? && events[p].ok && events[p].cluster == cluster
    && (probed ==> events[p - 1] == Probe(events[p].address, true))
    && events[p - back] == Inspect(name, events[p].address)
    && events[p + 1] == RouteCheck(true)
  }

  /** A cutover to `name` was complete before position `end`. */
  ghost predicate CutOver(events: seq<Event>, name: string, cluster: string, probed: bool, end: nat) {
    exists p :: 0 <= p && p + 1 < end && CutOverAt(events, name, cluster, probed, p)
  }

  lemma CutOverAtExtends(a: seq<Event>, b: seq<Event>, name: string, cluster: string, probed: bool, p: nat)
    requires CutOverAt(a, name, cluster, probed, p)
    ensures CutOverAt(a + b, name, cluster, probed, p) && (a + b)[p] == a[p]
  {
  }

  lemma CutOverAtShifts(a: seq<Event>, b: seq<Event>, name: string, cluster: string, probed: bool, p: nat)
    requires CutOverAt(b, name, cluster, probed, p)
    ensures CutOverAt(a + b, name, cluster, probed, |a| + p) && (a + b)[|a| + p] == b[p]
  {
    var back := if probed then 2 else 1;
    var ab := a + b;
    assert ab[|a| + p] == b[p] && ab[|a| + p - back] == b[p - back] && ab[|a| + p + 1] == b[p + 1];
    assert probed ==> ab[|a| + p - 1] == b[p - 1];
  }

  lemma CutOverAtEnd(events: seq<Event>, name: string, cluster: string, probed: bool)
    requires |events| >= 2 && CutOverAt(events, name, cluster, probed, |events| - 2)
    ensures CutOver(events, name, cluster, probed, |events|)
  {
  }

  lemma CutOverExtends(a: seq<Event>, b: seq<Event>, name: string, cluster: string, probed: bool, end: nat, end': nat)
    requires CutOver(a, name, cluster, probed, end) && end <= end' && end <= |a|
    ensures CutOver(a + b, name, cluster, probed, end')
  {
    var p :| 0 <= p && p + 1 < end && CutOverAt(a, name, cluster, probed, p);
    assert CutOverAt(a + b, name, cluster, probed, p);
  }

  lemma CutOverShifts(a: seq<Event>, b: seq<Event>, name: string, cluster: string, probed: bool, end: nat)
    requires CutOver(b, name, cluster, probed, end)
    ensures CutOver(a + b, name, cluster, probed, |a| + end)
  {
    var p :| 0 <= p && p + 1 < end && CutOverAt(b, name, cluster, probed, p);
    CutOverAtShifts(a, b, name, cluster, probed, p);
  }

  /** Where the traffic of a container has to go before it may be drained. */
  datatype Successor = Successor(name: string, cluster: string, probed: bool)

  /** No container of `victims` is stopped or removed before its traffic has
      been cut over to its successor. */
  ghost predicate ZeroGap(events: seq<Event>, victims: map<string, Successor>) {
    forall i :: 0 <= i < |events| && Drains(events[i]) && events[i].name in victims ==>
      var s := victims[events[i].name];
      CutOver(events, s.name, s.cluster, s.probed, i)
  }

  lemma ZeroGapAppend(a: seq<Event>, b: seq<Event>, victims: map<string, Successor>)
    requires ZeroGap(a, victims)
    requires forall i :: 0 <= i < |b| && Drains(b[i]) && b[i].name in victims ==>
      var s := victims[b[i].name];
      CutOver(a, s.name, s.cluster, s.probed, |a|) || CutOver(b, s.name, s.cluster, s.probed, i)
    ensures ZeroGap(a + b, victims)
  {
    var ab := a + b;
    forall i | 0 <= i < |ab| && Drains(ab[i]) && ab[i].name in victims
      ensures var s := victims[ab[i].name]; CutOver(ab, s.name, s.cluster, s.probed, i)
    {
      var s := victims[ab[i].name];
      if i < |a| {
        assert ab[i] == a[i];
        CutOverExtends(a, b, s.name, s.cluster, s.probed, i, i);
      } else {
        assert ab[i] == b[i - |a|];
        if CutOver(a, s.name, s.cluster, s.probed, |a|) {
          CutOverExtends(a, b, s.name, s.cluster, s.probed, |a|, i);
        } else {
          CutOverShifts(a, b, s.name, s.cluster, s.probed, i - |a|);
        }
      }
    }
  }

  // ---- what handling one service does to the containers ----

  /** `existing` lists exactly the workload containers of service `key`. */
  ghost predicate Snapshot(existing: seq<Container>, key: string, workload: map<string, Container>) {
    && (forall n <- workload :: workload[n].name == n)
    && DistinctNames(existing)
    && (forall c <- existing :: c.name in workload && workload[c.name] == c && KeyOf(c) == key)
    && (forall n <- workload :: KeyOf(workload[n]) == key ==> workload[n] in existing)
  }

  /** Containers of every other service are the same before and after. */
  ghost predicate OthersKept(key: string, before: map<string, Container>, after: map<string, Container>) {
    && (forall n <- before :: KeyOf(before[n]) != key ==> n in after && after[n] == before[n])
    && (forall n <- after :: KeyOf(after[n]) != key ==> n in before && before[n] == after[n])
  }

  /** Service `key` is served by exactly one container, `c`. */
  ghost predicate ServedBy(key: string, c: Container, workload: map<string, Container>) {
    && c.name in workload && workload[c.name] == c && KeyOf(c) == key
    && forall n <- workload :: KeyOf(workload[n]) == key ==> n == c.name
  }

  /** How many containers the events say were created. */
  function Creations(events: seq<Event>): nat {
    if events == [] then 0
    else Creations(events[..|events| - 1]) + (if events[|events| - 1].Create? && events[|events| - 1].ok then 1 else 0)
  }

  lemma {:induction false} CreationsAppend(a: seq<Event>, b: seq<Event>)
    ensures Creations(a + b) == Creations(a) + Creations(b)
  {
    if b == [] {
      assert a + b == a;
    } else {
      CreationsAppend(a, b[..|b| - 1]);
      assert (a + b)[..|a + b| - 1] == a + b[..|b| - 1];
    }
  }

  lemma {:induction false} NoCreations(events: seq<Event>)
    requires forall e <- events :: !e.Create?
    ensures Creations(events) == 0
  {
    if events != [] {
      NoCreations(events[..|events| - 1]);
      assert events[|events| - 1] in events;
    }
  }

  lemma QuietAppend(a: seq<Event>, b: seq<Event>)
    ensures Quiet(a + b) <==> Quiet(a) && Quiet(b)
  {
    forall e ensures e in a + b <==> e in a || e in b { }
    if Quiet(a + b) {
      forall e <- a ensures !e.Create? && !e.Start? && !e.Stop? && !e.Remove? { assert e in a + b; }
      forall e <- b ensures !e.Create? && !e.Start? && !e.Stop? && !e.Remove? { assert e in a + b; }
    }
  }

  lemma MapMinusSize<T>(m: map<string, T>, n: string)
    requires n in m
    ensures |m - {n}| == |m| - 1
  {
    assert (m - {n}).Keys == m.Keys - {n};
  }

  lemma MapPlusSize<T>(m: map<string, T>, n: string, v: T)
    ensures |m[n := v]| == if n in m then |m| else |m| + 1
  {
    assert m[n := v].Keys == m.Keys + {n};
  }

  /** The listed containers other than `name`. */
  function Others(existing: seq<Container>, name: string): seq<Container> {
    if existing == [] then []
    else (if existing[0].name == name then [] else [existing[0]]) + Others(existing[1..], name)
  }

  lemma OthersStep(existing: seq<Container>, i: nat, name: string)
    requires i < |existing|
    ensures Others(existing[i..], name) ==
            (if existing[i].name == name then [] else [existing[i]]) + Others(existing[i + 1..], name)
  {
    hide KeyOf;
    assert existing[i..][1..] == existing[i + 1..];
  }

  lemma NoOthers(existing: seq<Container>, name: string)
    ensures Others(existing[0..], name) == Others(existing, name) && Others(existing[|existing|..], name) == []
  {
    assert existing[0..] == existing;
  }

  lemma {:induction false} OthersSpec(existing: seq<Container>, name: string)
    requires DistinctNames(existing)
    ensures DistinctNames(Others(existing, name))
    ensures forall c :: c in Others(existing, name) <==> c in existing && c.name != name
  {
    if existing != [] {
      OthersSpec(existing[1..], name);
      assert existing == [existing[0]] + existing[1..];
    }
  }

  lemma {:induction false} OthersDiffer(existing: seq<Container>, name: string)
    ensures name !in Names(Others(existing, name))
  {
    if existing != [] { OthersDiffer(existing[1..], name); }
  }

  lemma NoNames(extras: seq<Container>)
    requires extras == []
    ensures Names(extras) == {}
  {
  }

  lemma NamesPrefix(extras: seq<Container>, i: nat)
    requires DistinctNames(extras) && i < |extras|
    ensures Names(extras[..i + 1]) == Names(extras[..i]) + {extras[i].name}
    ensures extras[i].name !in Names(extras[..i])
    ensures extras[i].name in Names(extras)
  {
    assert extras[..i + 1] == extras[..i] + [extras[i]];
    assert extras[i] in extras;
  }

  lemma {:induction false} DrainedSize(extras: seq<Container>, n: nat, workload: map<string, Container>)
    requires DistinctNames(extras) && n <= |extras|
    requires forall i :: 0 <= i < n ==> extras[i].name in workload
    ensures |workload - Names(extras[..n])| + n == |workload|
  {
    hide Names;
    if n == 0 {
      NoNames(extras[..0]);
      assert workload - Names(extras[..0]) == workload;
    } else {
      DrainedSize(extras, n - 1, workload);
      NamesPrefix(extras, n - 1);
      var rest := workload - Names(extras[..n - 1]);
      MapMinusSize(rest, extras[n - 1].name);
      assert rest - {extras[n - 1].name} == workload - Names(extras[..n]);
    }
  }

  /** `name` was asked to be removed. */
  ghost predicate RemovalAsked(events: seq<Event>, name: string) {
    exists i :: 0 <= i < |events| && events[i].Remove? && events[i].name == name
  }

  lemma RemovalAskedAppend(a: seq<Event>, b: seq<Event>, name: string)
    requires RemovalAsked(a, name) || RemovalAsked(b, name)
    ensures RemovalAsked(a + b, name)
  {
    if RemovalAsked(a, name) {
      var i :| 0 <= i < |a| && a[i].Remove? && a[i].name == name;
      assert (a + b)[i] == a[i];
    } else {
      var i :| 0 <= i < |b| && b[i].Remove? && b[i].name == name;
      assert (a + b)[|a| + i] == b[i];
    }
  }

  /** Apart from `names`, nothing changed; those of them that are left differ
      from before at most in whether they run. */
  ghost predicate OnlyDrained(names: set<string>, before: map<string, Container>, after: map<string, Container>) {
    && after.Keys <= before.Keys && before.Keys - names <= after.Keys
    && (forall n <- after :: if n in names then after[n] == before[n].(running := after[n].running)
        else after[n] == before[n])
  }

  lemma DrainStep(names: set<string>, x: string, before: map<string, Container>, gone: set<string>,
                  after: map<string, Container>)
    requires OnlyDrained({x}, before - gone, after) && x in names && gone <= names
    ensures OnlyDrained(names, before, after)
  {
  }

  // ---- one service: the three ways a pass can succeed ----

  lemma MemberName(list: seq<Container>, c: Container)
    requires c in list
    ensures c.name in Names(list)
  {
  }

  lemma OthersNames(existing: seq<Container>, c: Container)
    requires DistinctNames(existing) && c in existing
    ensures Names(Others(existing, c.name)) == Names(existing) - {c.name}
    ensures |Others(existing, c.name)| == |existing| - 1
  {
    OthersSpec(existing, c.name);
    forall n ensures n in Names(Others(existing, c.name)) <==> n in Names(existing) - {c.name} {
      if n in Names(existing) - {c.name} {
        var d :| d in existing && d.name == n;
        assert d in Others(existing, c.name);
      }
    }
    OthersCount(existing, c);
  }

  lemma {:induction false} OthersCount(existing: seq<Container>, c: Container)
    requires DistinctNames(existing)
    ensures |Others(existing, c.name)| == |existing| - (if c.name in Names(existing) then 1 else 0)
  {
    if existing != [] {
      OthersCount(existing[1..], c);
      assert existing == [existing[0]] + existing[1..];
      assert Names(existing) == {existing[0].name} + Names(existing[1..]);
      assert existing[0].name !in Names(existing[1..]);
    }
  }

  lemma DrainNothing(names: set<string>, m: map<string, Container>)
    ensures OnlyDrained(names, m, m)
  {
    forall n | n in m ensures m[n] == m[n].(running := m[n].running) { }
  }

  lemma DrainTwice(a: set<string>, b: set<string>, m0: map<string, Container>, m1: map<string, Container>,
                   m2: map<string, Container>)
    requires OnlyDrained(a, m0, m1) && OnlyDrained(b, m1, m2) && b <= a
    ensures OnlyDrained(a, m0, m2)
  {
  }

  /** Draining containers of a service does not disturb any other service. */
  lemma DrainKeepsOthers(existing: seq<Container>, key: string, before: map<string, Container>,
                         after: map<string, Container>)
    requires Snapshot(existing, key, before) && OnlyDrained(Names(existing), before, after)
    ensures OthersKept(key, before, after)
  {
    hide ServiceKey;
    forall n | n in before && n in Names(existing) ensures KeyOf(before[n]) == key {
      var c :| c in existing && c.name == n;
    }
    forall n | n in after ensures KeyOf(after[n]) == KeyOf(before[n]) {
      assert after[n] == before[n] || after[n] == before[n].(running := after[n].running);
    }
  }

  /** Keeping one of a service's containers and removing the rest. */
  lemma KeptIsServed(existing: seq<Container>, current: Container, key: string,
                     before: map<string, Container>, after: map<string, Container>)
    requires Snapshot(existing, key, before) && current in existing
    requires after == before[current.name := current.(running := true)] - (Names(existing) - {current.name})
    ensures ServedBy(key, current.(running := true), after)
  {
    hide ServiceKey;
    forall n | n in after && KeyOf(after[n]) == key ensures n == current.name {
      if n != current.name {
        assert before[n] in existing;
        MemberName(existing, before[n]);
      }
    }
  }

  /** Removing all of a service's containers and adding one. */
  lemma FreshIsServed(existing: seq<Container>, c: Container, key: string,
                      before: map<string, Container>, after: map<string, Container>)
    requires Snapshot(existing, key, before) && KeyOf(c) == key
    requires after == (before - Names(existing))[c.name := c]
    ensures ServedBy(key, c, after)
  {
    hide ServiceKey;
    forall n | n in after && KeyOf(after[n]) == key ensures n == c.name {
      if n != c.name {
        assert before[n] in existing;
        MemberName(existing, before[n]);
      }
    }
  }

  // ---- a whole pass ----

  lemma {:induction false} ExistingMembers(list: seq<Container>, key: string)
    requires DistinctNames(list)
    ensures DistinctNames(ExistingOf(list, key))
    ensures forall c :: c in ExistingOf(list, key) <==> c in list && c.service != "" && KeyOf(c) == key
  {
    hide ServiceKey;
    if list != [] {
      ExistingMembers(list[1..], key);
      assert list == [list[0]] + list[1..];
    }
  }

  /** The keyed map of desired services. */
  function DesiredMap(services: seq<RuntimeService>): map<string, RuntimeService> {
    if services == [] then map[]
    else DesiredMap(services[..|services| - 1])[ServiceKeyOf(services[|services| - 1]) := services[|services| - 1]]
  }

  /** Every entry is filed under its own key, with usable names. */
  ghost predicate Keyed(desired: map<string, RuntimeService>) {
    forall k <- desired :: ServiceKeyOf(desired[k]) == k && NamesOf(desired[k])
  }

  lemma {:induction false} DesiredMapSpec(services: seq<RuntimeService>)
    requires NamesPresent(services)
    ensures Keyed(DesiredMap(services))
    ensures forall k <- DesiredMap(services) :: DesiredMap(services)[k] in services
    ensures forall rs <- services :: ServiceKeyOf(rs) in DesiredMap(services)
  {
    hide ServiceKey;
    if services != [] {
      var n := |services| - 1;
      DesiredMapSpec(services[..n]);
      assert services == services[..n] + [services[n]];
    }
  }

  /** The keys are those of the services. */
  lemma {:induction false} DesiredKeys(services: seq<RuntimeService>)
    ensures DesiredMap(services).Keys == set rs <- services :: ServiceKey(rs.environmentName, rs.serviceName)
  {
    hide ServiceKey;
    if services != [] {
      var n := |services| - 1;
      DesiredKeys(services[..n]);
      assert services == services[..n] + [services[n]];
    }
  }

  /** With distinct keys, the map has one entry for each service. */
  lemma {:induction false} DesiredMapSize(services: seq<RuntimeService>)
    requires NamesPresent(services) && KeysDistinct(services)
    ensures |DesiredMap(services)| == |services|
  {
    hide ServiceKey, NamesOf;
    if services != [] {
      var n := |services| - 1;
      var front := services[..n];
      DesiredMapSize(front);
      LastKeyIsNew(services, n);
      MapPlusSize(DesiredMap(front), ServiceKeyOf(services[n]), services[n]);
    }
  }

  lemma LastKeyIsNew(services: seq<RuntimeService>, n: nat)
    requires NamesPresent(services) && KeysDistinct(services) && n + 1 == |services|
    ensures ServiceKeyOf(services[n]) !in DesiredMap(services[..n])
  {
    hide ServiceKeyOf, NamesOf, DesiredMap;
    var front := services[..n];
    DesiredMapSpec(front);
    forall rs | rs in front ensures ServiceKeyOf(rs) != ServiceKeyOf(services[n]) {
      var i :| 0 <= i < n && front[i] == rs;
      KeysDiffer(services, i, n);
    }
  }

  lemma KeysDiffer(services: seq<RuntimeService>, i: nat, j: nat)
    requires KeysDistinct(services) && i < j < |services|
    ensures ServiceKeyOf(services[i]) != ServiceKeyOf(services[j])
  {
    hide ServiceKey;
  }

  /** Containers whose service is still to be handled, or is not desired at all,
      are as they were. */
  ghost predicate Framed(pre: map<string, Container>, now: map<string, Container>, todo: set<string>,
                         desired: map<string, RuntimeService>) {
    && (forall n <- pre :: KeyOf(pre[n]) in todo || KeyOf(pre[n]) !in desired ==> n in now && now[n] == pre[n])
    && (forall n <- now :: KeyOf(now[n]) in todo || KeyOf(now[n]) !in desired ==> n in pre && pre[n] == now[n])
  }

  lemma FramedStep(pre: map<string, Container>, now: map<string, Container>, next: map<string, Container>,
                   todo: set<string>, k: string, desired: map<string, RuntimeService>)
    requires Framed(pre, now, todo, desired) && OthersKept(k, now, next) && k in desired
    ensures Framed(pre, next, todo - {k}, desired)
  {
    hide KeyOf;
  }

  /** `list` is the listing of a host whose workload was `pre`. */
  ghost predicate ListingOf(list: seq<Container>, pre: map<string, Container>, envoyName: string) {
    && DistinctNames(list) && envoyName !in pre
    && (forall c <- list :: if c.name == envoyName then c.service == "" && c.system == SYSTEM_ENVOY
                            else c.name in pre && pre[c.name] == c)
    && (forall n <- pre :: pre[n] in list && pre[n].name == n)
  }

  ghost predicate WellNamed(m: map<string, Container>) {
    forall n <- m :: m[n].name == n
  }

  /** The listing taken at the start of the pass still describes every service
      that has not been handled. */
  lemma ListingStillHolds(list: seq<Container>, pre: map<string, Container>, envoyName: string,
                          now: map<string, Container>, todo: set<string>, k: string,
                          desired: map<string, RuntimeService>)
    requires ListingOf(list, pre, envoyName) && Keyed(desired) && k in todo && k in desired
    requires Framed(pre, now, todo, desired) && WellNamed(now)
    ensures Snapshot(ExistingOf(list, k), k, now)
  {
    hide ServiceKey;
    var existing := ExistingOf(list, k);
    ExistingMembers(list, k);
    forall n | n in now && KeyOf(now[n]) == k ensures now[n] in existing {
      var c := now[n];
      assert pre[n] == c && c in list;
      if c.service == "" {
        ServiceKeyInjective(c.environment, c.service, desired[k].environmentName, desired[k].serviceName);
        assert false;
      }
    }
  }

  /** Every container of a handled service is gone or still its service's. */
  ghost predicate Accounted(victims: map<string, Successor>, pre: map<string, Container>, now: map<string, Container>,
                            events: seq<Event>) {
    forall n <- victims :: n in pre && (RemovalAsked(events, n) || (n in now && KeyOf(now[n]) == KeyOf(pre[n])))
  }

  /** The ingress is public, and its TLS automatic, as it is unless it says otherwise. */
  ghost predicate AutomaticTLS(ingress: Option<Ingress>) {
    IsPublic(ingress) && TLSWord(ingress.value) in ["", "auto"]
  }

  lemma AutomaticTLSIs(ingress: Option<Ingress>)
    ensures TLSErrorIsNonFatal(ingress) <==> AutomaticTLS(ingress)
  {
    hide Trim;
  }

  /** `ingressAutoTLSErrorIsNonFatal`. */
  function TLSErrorIsNonFatal(ingress: Option<Ingress>): bool {
    match ingress
    case None => false
    case Some(i) =>
      && (Blank(i.mode) || Trim(i.mode) == MODE_PUBLIC)
      && (i.tlsMode.None? || Blank(i.tlsMode.value) || Trim(i.tlsMode.value) == "auto")
  }

  /** What a pass needs to know of the ingress: whether a certificate failure is
      fatal, and the clusters that its routes refer to. */
  datatype IngressView = IngressView(tlsErrorNonFatal: bool, clusters: set<string>)

  /** `selectedRuntimeServices` for the accessories of one environment. */
  function AccessoriesOf(services: seq<RuntimeService>, environmentName: string): seq<RuntimeService> {
    if services == [] then []
    else (if services[0].environmentName == environmentName && services[0].serviceKind == KIND_ACCESSORY
          then [services[0]] else []) +
         AccessoriesOf(services[1..], environmentName)
  }

  lemma {:induction false} AccessoriesSpec(services: seq<RuntimeService>, environmentName: string)
    requires NamesPresent(services) && KeysDistinct(services)
    ensures var selected := AccessoriesOf(services, environmentName);
      && NamesPresent(selected) && KeysDistinct(selected)
      && forall rs :: rs in selected <==>
           rs in services && rs.environmentName == environmentName && rs.serviceKind == KIND_ACCESSORY
  {
    hide ServiceKey;
    if services != [] {
      var rest := services[1..];
      assert services == [services[0]] + rest;
      assert KeysDistinct(rest) && NamesPresent(rest);
      AccessoriesSpec(rest, environmentName);
      forall rs | rs in AccessoriesOf(rest, environmentName) ensures ServiceKeyOf(rs) != ServiceKeyOf(services[0]) {
        var i :| 0 <= i < |rest| && rest[i] == rs;
        assert services[i + 1] == rs;
      }
    }
  }

  class Reconciler {
    const host: Host
    const protectedNames: seq<string>
    /** Container name, hash and image of a service, if they can be derived. */
    const specFor: RuntimeService -> Option<Spec>
    const sanitize: string -> string
    const hasEnvoy: bool
    const hasCerts: bool

    constructor (host: Host, protectedNames: seq<string>, specFor: RuntimeService -> Option<Spec>,
                 sanitize: string -> string, hasEnvoy: bool, hasCerts: bool)
      requires host.Valid()
      requires forall rs :: specFor(rs).Some? ==> specFor(rs).value.name != host.envoyName
      requires Protects(protectedNames, host.envoyName)
      ensures Valid() && this.host == host
    {
      this.host, this.protectedNames, this.specFor := host, protectedNames, specFor;
      this.sanitize, this.hasEnvoy, this.hasCerts := sanitize, hasEnvoy, hasCerts;
    }

    /** The Envoy cluster of a service's default port. */
    function ClusterFor(rs: RuntimeService): string {
      EnvoyClusterName(rs.environmentName, rs.serviceName, DEFAULT_HTTP_PORT_NAME, sanitize)
    }

    /** The clusters that the routes of an ingress refer to. */
    function ClustersOf(ingress: Option<Ingress>): set<string> {
      Routing.Referenced(Routing.RoutesOfIngress(ingress), sanitize)
    }

    function ViewOf(ingress: Option<Ingress>): IngressView {
      IngressView(TLSErrorIsNonFatal(ingress), ClustersOf(ingress))
    }

    /** No service container is named like Envoy's, and Envoy's is protected. */
    ghost predicate Valid()
      reads host
    {
      && host.Valid()
      && (forall rs :: specFor(rs).Some? ==> specFor(rs).value.name != host.envoyName)
      && Protects(protectedNames, host.envoyName)
    }

    method StopAndRemove(c: Container) returns (ok: bool, ghost seg: seq<Event>)
      requires host.Valid() && c.name != host.envoyName
      modifies host`containers, host`trace
      ensures host.Valid() && host.trace == old(host.trace) + seg
      ensures forall e <- seg :: Drains(e) && e.name == c.name
      ensures OnlyDrained({c.name}, old(host.Workload()), host.Workload())
      ensures ok ==> c.name in old(host.Workload()) && host.Workload() == old(host.Workload()) - {c.name}
      ensures c.name in old(host.Workload()) && c.name !in host.Workload() ==> RemovalAsked(seg, c.name)
    {
      seg := [];
      if c.running {
        ok := host.Stop(c.name);
        seg := [Event.Stop(c.name, ok)];
        if !ok { return; }
      }
      ghost var gone;
      ok, gone := host.Remove(c.name);
      seg := seg + [Event.Remove(c.name, ok, gone)];
      assert seg[|seg| - 1] == Event.Remove(c.name, ok, gone);
    }

    /** The drain loops: stop and remove every container of `extras`, giving up
        at the first failure. */
    method DrainAll(extras: seq<Container>) returns (ok: bool, removed: nat, ghost seg: seq<Event>)
      requires host.Valid() && DistinctNames(extras)
      requires forall c <- extras :: c.name in host.Workload() && host.Workload()[c.name] == c
      modifies host`containers, host`trace
      ensures host.Valid() && host.trace == old(host.trace) + seg
      ensures forall e <- seg :: Drains(e) && e.name in Names(extras)
      ensures OnlyDrained(Names(extras), old(host.Workload()), host.Workload())
      ensures removed <= |extras|
      ensures ok ==> host.Workload() == old(host.Workload()) - Names(extras) && removed == |extras|
      ensures forall n <- old(host.Workload()) :: n !in host.Workload() ==> RemovalAsked(seg, n)
    {
      hide Names;
      ok, removed, seg := true, 0, [];
      NoNames(extras[..0]);
      for i := 0 to |extras|
        invariant host.Valid() && host.trace == old(host.trace) + seg
        invariant forall e <- seg :: Drains(e) && e.name in Names(extras)
        invariant Names(extras[..i]) <= Names(extras)
        invariant host.Workload() == old(host.Workload()) - Names(extras[..i])
        invariant removed == i
        invariant forall n <- old(host.Workload()) :: n !in host.Workload() ==> RemovalAsked(seg, n)
      {
        ghost var one;
        NamesPrefix(extras, i);
        ghost var before := host.Workload();
        ok, one := StopAndRemove(extras[i]);
        DrainStep(Names(extras), extras[i].name, old(host.Workload()), Names(extras[..i]), host.Workload());
        forall n | n in old(host.Workload()) && n !in host.Workload() ensures RemovalAsked(seg + one, n) {
          RemovalAskedAppend(seg, one, n);
        }
        seg := seg + one;
        if !ok { return; }
        removed := removed + 1;
      }
      assert extras[..|extras|] == extras;
    }

    /** `waitHealthy`: probes until one probe succeeds or the attempts run out. */
    method WaitHealthy(name: string, rs: RuntimeService) returns (ok: bool, address: string, ghost seg: seq<Event>)
      requires host.Valid()
      modifies host`trace, host`owners
      ensures host.trace == old(host.trace) + seg && Quiet(seg) && !Repoints(seg)
      ensures ok ==> host.OwnerOf(address) == name
      ensures ok ==>
        |seg| >= 2 && seg[|seg| - 2] == Event.Inspect(name, address) &&
        seg[|seg| - 1] == Probe(address, true)
    {
      hide KeyOf, ClusterFor;
      ok, address, seg := false, "", [];
      if rs.service.healthcheck.None? { return; }
      var slept := host.Attempt();
      if !slept { return; }
      var attempts := if rs.service.healthcheck.value.retries <= 0 then 1 else rs.service.healthcheck.value.retries;
      for attempt := 0 to attempts
        invariant !ok && host.trace == old(host.trace) + seg && Quiet(seg) && !Repoints(seg)
      {
        var live := host.Attempt();
        if !live { return; }
        var inspected, running;
        inspected, running, address := host.Inspect(name);
        seg := seg + [Event.Inspect(name, address)];
        if !inspected || !running { return; }
        if address != "" {
          var healthy := host.ProbeHTTP(address);
          seg := seg + [Probe(address, healthy)];
          if healthy {
            ok := true;
            return;
          }
        }
        if attempt < attempts - 1 {
          slept := host.Attempt();
          if !slept { return; }
        }
      }
    }

    /** `webContainerIP`: the address of the container, after a successful probe of
        it when one is due. */
    method WebContainerIP(name: string, rs: RuntimeService, waitForHealthy: bool)
      returns (ok: bool, address: string, ghost seg: seq<Event>)
      requires host.Valid()
      modifies host`trace, host`owners
      ensures host.trace == old(host.trace) + seg && Quiet(seg) && !Repoints(seg)
      ensures ok ==>
        var back := if waitForHealthy then 2 else 1;
        && host.OwnerOf(address) == name
        && |seg| >= back && seg[|seg| - back] == Event.Inspect(name, address)
        && (waitForHealthy ==> seg[|seg| - 1] == Probe(address, true))
    {
      if waitForHealthy {
        ok, address, seg := WaitHealthy(name, rs);
      } else {
        var running;
        ok, running, address := host.Inspect(name);
        seg := [Event.Inspect(name, address)];
        ok := ok && running && address != "";
      }
    }

    /** `cutoverWeb`: point the service's cluster at container `name`, then wait
        until the route answers. */
    method CutoverWeb(name: string, rs: RuntimeService, waitForHealthy: bool) returns (ok: bool, ghost seg: seq<Event>)
      requires host.Valid()
      modifies host`containers, host`trace, host`owners, host`endpoints
      ensures host.Valid() && host.Workload() == old(host.Workload())
      ensures host.trace == old(host.trace) + seg && Quiet(seg)
      ensures ok ==>
        |seg| >= 2 && CutOverAt(seg, name, ClusterFor(rs), waitForHealthy, |seg| - 2)
      ensures host.referenced == old(host.referenced)
      ensures TableAfter(seg, name, ClusterFor(rs), host.defaultCluster, host.referenced, old(host.endpoints),
                         host.endpoints)
      ensures if ok then Repoints(seg) else EndsFailing(seg)
    {
      hide KeyOf, ClusterFor, Repoints, Repointed, EndsFailing, Points, Pruned, FailsAt;
      ghost var table := host.endpoints;
      var address;
      ok, address, seg := WebContainerIP(name, rs, waitForHealthy);
      NeverPointed(seg);
      if !ok { return; }
      ghost var inspected := seg;
      ok := host.UpdateClusterEDS(ClusterFor(rs), address);
      seg := seg + [Point(ClusterFor(rs), address, ok)];
      PointedAtEnd(inspected, Point(ClusterFor(rs), address, ok), []);
      LedTo(table, ClusterFor(rs), host.defaultCluster, host.referenced, address, name, ok, host.endpoints);
      if !ok { return; }
      ghost var pointed := host.endpoints;
      ok := host.WaitForRoute();
      SettledTable(table, ClusterFor(rs), host.defaultCluster, host.referenced, Endpoint(address, name), pointed,
                   host.endpoints);
      seg := seg + [RouteCheck(ok)];
      assert seg == inspected + [Point(ClusterFor(rs), address, true)] + [RouteCheck(ok)];
      PointedAtEnd(inspected, Point(ClusterFor(rs), address, true), [RouteCheck(ok)]);
    }

    /** `tearDownFailedContainer`: stop, collect logs, remove, ignoring errors. */
    method TearDown(name: string) returns (ghost seg: seq<Event>)
      requires host.Valid()
      modifies host`containers, host`trace
      ensures host.Valid() && host.trace == old(host.trace) + seg
      ensures |seg| == 2 && seg[0].Stop? && seg[0].name == name && seg[1].Remove? && seg[1].name == name
      ensures name != host.envoyName ==> (seg[1].gone <==> name !in host.Workload())
      ensures name != host.envoyName ==> OnlyDrained({name}, old(host.Workload()), host.Workload())
    {
      var stopped := host.Stop(name);
      var logged := host.Attempt();
      var removed;
      ghost var gone;
      removed, gone := host.Remove(name);
      seg := [Event.Stop(name, stopped), Event.Remove(name, removed, gone)];
    }

    /** The container that web traffic of `rs` must have reached before any
        container of `existing` may be drained. */
    ghost function SuccessorOf(existing: seq<Container>, rs: RuntimeService, spec: Spec): Successor {
      var match_ := FirstMatch(existing, spec.hash);
      Successor(Chosen(existing, rs, spec).name, ClusterFor(rs), match_.None? || !match_.value.running)
    }

    /** What handling one service promises about its trace `seg`. */
    ghost predicate ServiceTrace(seg: seq<Event>, existing: seq<Container>, rs: RuntimeService, spec: Spec,
                                 before: map<string, Container>, after: map<string, Container>) {
      && (forall e <- seg :: Drains(e) ==> e.name in Names(existing) || (e.name == spec.name && e.name !in before))
      && (forall n <- before :: n !in after ==> RemovalAsked(seg, n))
    }

    ghost predicate DrainsAfterCutover(seg: seq<Event>, names: set<string>, s: Successor) {
      forall i :: 0 <= i < |seg| && Drains(seg[i]) && seg[i].name in names ==>
        CutOver(seg, s.name, s.cluster, s.probed, i)
    }

    /** The new container of a failed first cutover was torn down, and the
        containers that serve so far were left alone. */
    ghost predicate RolledBack(seg: seq<Event>, existing: seq<Container>, spec: Spec, after: map<string, Container>) {
      && (forall c <- existing :: c.name in after && after[c.name] == c)
      && ((exists e <- seg :: e == Create(spec.name, true)) ==>
            |seg| >= 2 && seg[|seg| - 2].Stop? && seg[|seg| - 2].name == spec.name
            && seg[|seg| - 1].Remove? && seg[|seg| - 1].name == spec.name)
    }

    /** What every way of handling one service promises. */
    ghost predicate ServiceOutcome(ok: bool, result: Result, seg: seq<Event>, existing: seq<Container>,
                                   rs: RuntimeService, spec: Spec, before: map<string, Container>,
                                   after: map<string, Container>) {
      && OthersKept(ServiceKeyOf(rs), before, after)
      && ServiceTrace(seg, existing, rs, spec, before, after)
      && (ok ==>
            && ServedBy(ServiceKeyOf(rs), Chosen(existing, rs, spec), after)
            && result.created + result.updated + result.untouched == 1
            && |after| + result.removed == |before| + Creations(seg))
      && (Undisturbed(existing, spec) ==> Quiet(seg) && after == before && (ok ==> result == Result(0, 0, 0, 1)))
    }

    /** The service is already served, by one running container. */
    ghost predicate Undisturbed(existing: seq<Container>, spec: Spec) {
      |existing| == 1 && existing[0].hash == spec.hash && existing[0].running
    }

    /** What the web path promises on top. */
    ghost predicate WebOutcome(ok: bool, seg: seq<Event>, existing: seq<Container>, rs: RuntimeService, spec: Spec,
                               after: map<string, Container>) {
      var s := SuccessorOf(existing, rs, spec);
      && DrainsAfterCutover(seg, Names(existing), s)
      && (ok ==> exists p :: 0 <= p && CutOverAt(seg, s.name, s.cluster, s.probed, p))
      && (!ok && FirstMatch(existing, spec.hash).None? && !CutOver(seg, s.name, s.cluster, s.probed, |seg|) ==>
            RolledBack(seg, existing, spec, after))
    }

    /** What it promises about the endpoint table: see `EndpointOutcome`.  A
        successful run has pointed traffic at the chosen container. */
    ghost predicate WebTable(ok: bool, seg: seq<Event>, existing: seq<Container>, rs: RuntimeService, spec: Spec,
                             before: map<string, Endpoint>)
      reads host
    {
      && EndpointOutcome(seg, Chosen(existing, rs, spec).name, ClusterFor(rs), host.defaultCluster, before,
                         host.endpoints,
                         host.Workload())
      && (ok ==>
            && Repoints(seg)
            && (ClusterKey(ClusterFor(rs), host.defaultCluster) in host.referenced ==>
                  ClusterKey(ClusterFor(rs), host.defaultCluster) in host.endpoints)
            && (forall c <- before :: c in host.referenced ==> c in host.endpoints))
    }

    lemma AdoptTable(ok: bool, cutOver: bool, existing: seq<Container>, rs: RuntimeService, spec: Spec,
                     current: Container, up: seq<Event>, drained: seq<Event>, before: map<string, Endpoint>,
                     middle: map<string, Container>)
      requires FirstMatch(existing, spec.hash) == Some(current)
      requires TableAfter(up, current.name, ClusterFor(rs), host.defaultCluster, host.referenced, before,
                          host.endpoints)
      requires forall e <- up :: !Drains(e) && !e.Create?
      requires forall e <- drained :: Drains(e) && e.name in Names(Others(existing, current.name))
      requires current.name in middle && OnlyDrained(Names(Others(existing, current.name)), middle, host.Workload())
      requires ok ==> Repoints(up)
      ensures WebTable(ok, up + drained, existing, rs, spec, before)
    {
      hide TableAfter, EndpointOutcome;
      OthersDiffer(existing, current.name);
      RepointsAppend(up, drained);
      if ok { RepointedNow(up, current.name, rs, before); }
      StandingOutcome(up, drained, current.name, ClusterFor(rs), host.defaultCluster, host.referenced, before,
                      host.endpoints, host.Workload());
    }

    lemma RepointedNow(seg: seq<Event>, name: string, rs: RuntimeService, before: map<string, Endpoint>)
      requires TableAfter(seg, name, ClusterFor(rs), host.defaultCluster, host.referenced, before, host.endpoints) &&
        Repoints(seg)
      ensures ClusterKey(ClusterFor(rs), host.defaultCluster) in host.referenced ==>
                ClusterKey(ClusterFor(rs), host.defaultCluster) in host.endpoints
      ensures forall c <- before :: c in host.referenced ==> c in host.endpoints
    {
      hide Repointed;
      RepointedEntries(before, host.endpoints, ClusterFor(rs), host.defaultCluster, host.referenced, name);
    }

    lemma NothingPointed(existing: seq<Container>, rs: RuntimeService, spec: Spec, before: map<string, Endpoint>)
      requires host.endpoints == before
      ensures WebTable(false, [Create(spec.name, false)], existing, rs, spec, before)
    {
    }

    lemma TornDownTable(existing: seq<Container>, rs: RuntimeService, spec: Spec, cut: seq<Event>, down: seq<Event>,
                        before: map<string, Endpoint>)
      requires FirstMatch(existing, spec.hash).None?
      requires TableAfter(cut, spec.name, ClusterFor(rs), host.defaultCluster, host.referenced, before, host.endpoints)
      requires EndsFailing(cut) && Quiet(cut)
      requires |down| == 2 && down[0].Stop? && down[1].Remove? && down[1].name == spec.name
      requires down[1].gone <==> spec.name !in host.Workload()
      ensures WebTable(false, [Create(spec.name, true)] + cut + down, existing, rs, spec, before)
    {
      hide TableAfter, EndpointOutcome, EndsFailing;
      FailedOutcome([Create(spec.name, true)], cut, down, spec.name, ClusterFor(rs), host.defaultCluster,
                    host.referenced, before, host.endpoints, host.Workload());
    }

    lemma ReplaceTable(ok: bool, existing: seq<Container>, rs: RuntimeService, spec: Spec, cut: seq<Event>,
                       drained: seq<Event>, table: map<string, Endpoint>, before: map<string, Container>)
      requires Snapshot(existing, ServiceKeyOf(rs), before) && spec.name !in before &&
        FirstMatch(existing, spec.hash).None?
      requires TableAfter(cut, spec.name, ClusterFor(rs), host.defaultCluster, host.referenced, table, host.endpoints)
      requires Quiet(cut) && Repoints(cut)
      requires forall e <- drained :: Drains(e) && e.name in Names(existing)
      requires OnlyDrained(Names(existing), before[spec.name := Fresh(rs, spec)], host.Workload())
      ensures WebTable(ok, [Create(spec.name, true)] + cut + drained, existing, rs, spec, table)
    {
      hide EndpointOutcome, Snapshot, Repointed;
      var create := [Create(spec.name, true)];
      FreshNotListed(existing, rs, spec, before);
      RepointsAppend(create, cut);
      RepointsAppend(create + cut, drained);
      assert forall e <- create + cut :: e in create || e in cut;
      RepointedNow(cut, spec.name, rs, table);
      StandingOutcome(create + cut, drained, spec.name, ClusterFor(rs), host.defaultCluster, host.referenced, table,
                      host.endpoints, host.Workload());
    }

    method StaleContainers(existing: seq<Container>, currentName: string) returns (stale: seq<Container>)
      ensures stale == Others(existing, currentName)
    {
      hide KeyOf, ClusterFor, Others;
      stale := [];
      NoOthers(existing, currentName);
      for i := 0 to |existing|
        invariant stale + Others(existing[i..], currentName) == Others(existing, currentName)
      {
        OthersStep(existing, i, currentName);
        if existing[i].name == currentName { continue; }
        stale := stale + [existing[i]];
      }
    }

    /** First half of the web path when a container with the right hash exists:
        start it if need be and cut traffic over to it. */
    method BringUp(rs: RuntimeService, current: Container) returns (ok: bool, result: Result, ghost seg: seq<Event>)
      requires Valid() && current.name in host.Workload() && host.Workload()[current.name] == current
      modifies host`containers, host`trace, host`owners, host`endpoints
      ensures Valid() && host.trace == old(host.trace) + seg
      ensures OnlyDrained({current.name}, old(host.Workload()), host.Workload())
      ensures current.name in host.Workload()
      ensures forall e <- seg :: !Drains(e) && !e.Create?
      ensures ok ==>
        && host.Workload() == old(host.Workload())[current.name := current.(running := true)]
        && |seg| >= 2 && CutOverAt(seg, current.name, ClusterFor(rs), !current.running, |seg| - 2)
        && Repoints(seg)
        && result == (if current.running then Result(0, 0, 0, 1) else Result(0, 1, 0, 0))
      ensures current.running ==> Quiet(seg) && host.Workload() == old(host.Workload())
      ensures host.referenced == old(host.referenced)
      ensures TableAfter(seg, current.name, ClusterFor(rs), host.defaultCluster, host.referenced, old(host.endpoints),
                         host.endpoints)
    {
      hide KeyOf, ClusterFor, CutOverAt, Repointed;
      result, seg := NOTHING, [];
      if current.running {
        result := result.(untouched := 1);
        ok, seg := CutoverWeb(current.name, rs, false);
      } else {
        ok := host.Start(current.name);
        seg := [Event.Start(current.name, ok)];
        if !ok { return; }
        result := result.(updated := 1);
        ghost var cut;
        ok, cut := CutoverWeb(current.name, rs, true);
        RepointsAppend(seg, cut);
        if ok {
          CutOverAtShifts(seg, cut, current.name, ClusterFor(rs), true, |cut| - 2);
        }
        seg := seg + cut;
      }
    }

    /** Traces of adopting a container: it is brought up, the others drained. */
    lemma AdoptTrace(existing: seq<Container>, rs: RuntimeService, spec: Spec, current: Container,
                     up: seq<Event>, drained: seq<Event>,
                     before: map<string, Container>, middle: map<string, Container>, after: map<string, Container>)
      requires Snapshot(existing, ServiceKeyOf(rs), before) && FirstMatch(existing, spec.hash) == Some(current)
      requires OnlyDrained({current.name}, before, middle) && current.name in middle
      requires forall e <- up :: !Drains(e) && !e.Create?
      requires forall e <- drained :: Drains(e) && e.name in Names(Others(existing, current.name))
      requires forall n <- middle :: n !in after ==> RemovalAsked(drained, n)
      ensures ServiceTrace(up + drained, existing, rs, spec, before, after)
      ensures Creations(up + drained) == 0
    {
      hide KeyOf, ClusterFor, Creations;
      var seg := up + drained;
      MemberName(existing, current);
      OthersNames(existing, current);
      forall n | n in before && n !in after ensures RemovalAsked(seg, n) {
        RemovalAskedAppend(up, drained, n);
      }
      forall e | e in seg && Drains(e) ensures e.name in Names(existing) {
        assert e in up || e in drained;
      }
      NoCreations(seg);
    }

    /** Nothing is drained before `up` has completed the cutover. */
    lemma AdoptDrains(existing: seq<Container>, rs: RuntimeService, spec: Spec, current: Container,
                      up: seq<Event>, drained: seq<Event>)
      requires FirstMatch(existing, spec.hash) == Some(current)
      requires forall e <- up :: !Drains(e)
      requires drained == [] || CutOver(up, current.name, ClusterFor(rs), !current.running, |up|)
      ensures DrainsAfterCutover(up + drained, Names(existing), SuccessorOf(existing, rs, spec))
    {
      hide CutOver;
      var seg := up + drained;
      forall i | 0 <= i < |up| ensures !Drains(seg[i]) {
        assert seg[i] == up[i] && up[i] in up;
      }
      forall i | 0 <= i < |seg| && Drains(seg[i])
        ensures CutOver(seg, current.name, ClusterFor(rs), !current.running, i)
      {
        CutOverExtends(up, drained, current.name, ClusterFor(rs), !current.running, |up|, i);
      }
    }

    /** ... and what it leaves of the containers. */
    lemma AdoptContainers(ok: bool, existing: seq<Container>, rs: RuntimeService, spec: Spec, current: Container,
                          before: map<string, Container>, middle: map<string, Container>, after: map<string, Container>)
      requires Snapshot(existing, ServiceKeyOf(rs), before) && FirstMatch(existing, spec.hash) == Some(current)
      requires OnlyDrained({current.name}, before, middle) && current.name in middle
      requires OnlyDrained(Names(Others(existing, current.name)), middle, after)
      requires ok ==> middle == before[current.name := current.(running := true)]
      requires ok ==> after == middle - Names(Others(existing, current.name))
      ensures OthersKept(ServiceKeyOf(rs), before, after)
      ensures ok ==> ServedBy(ServiceKeyOf(rs), Chosen(existing, rs, spec), after)
      ensures ok ==> |after| + |Others(existing, current.name)| == |before|
    {
      hide KeyOf, ClusterFor, ServedBy, OthersKept;
      var others := Others(existing, current.name);
      MemberName(existing, current);
      OthersSpec(existing, current.name);
      OthersNames(existing, current);
      DrainTwice(Names(existing), Names(others), before, middle, after);
      DrainKeepsOthers(existing, ServiceKeyOf(rs), before, after);
      if ok {
        KeptIsServed(existing, current, ServiceKeyOf(rs), before, after);
        forall i | 0 <= i < |others| ensures others[i].name in middle {
          assert others[i] in others;
        }
        DrainedSize(others, |others|, middle);
        assert others[..|others|] == others;
        MapPlusSize(before, current.name, current.(running := true));
      }
    }

    /** The stale containers are still there once the current one is up. */
    lemma StaleListed(existing: seq<Container>, key: string, current: Container,
                      before: map<string, Container>, middle: map<string, Container>)
      requires Snapshot(existing, key, before) && current in existing
      requires OnlyDrained({current.name}, before, middle)
      ensures DistinctNames(Others(existing, current.name))
      ensures forall c <- Others(existing, current.name) :: c.name in middle && middle[c.name] == c
    {
      hide KeyOf, ClusterFor;
      OthersSpec(existing, current.name);
    }

    /** Outcome of the adopting web path. */
    lemma AdoptOutcome(ok: bool, result: Result, removed: nat, cutOver: bool,
                       existing: seq<Container>, rs: RuntimeService, spec: Spec, current: Container,
                       up: seq<Event>, drained: seq<Event>,
                       before: map<string, Container>, middle: map<string, Container>, after: map<string, Container>)
      requires Snapshot(existing, ServiceKeyOf(rs), before) && FirstMatch(existing, spec.hash) == Some(current)
      requires OnlyDrained({current.name}, before, middle) && current.name in middle
      requires OnlyDrained(Names(Others(existing, current.name)), middle, after)
      requires forall e <- up :: !Drains(e) && !e.Create?
      requires forall e <- drained :: Drains(e) && e.name in Names(Others(existing, current.name))
      requires forall n <- middle :: n !in after ==> RemovalAsked(drained, n)
      requires !cutOver ==> drained == []
      requires cutOver ==>
        && |up| >= 2 && CutOverAt(up, current.name, ClusterFor(rs), !current.running, |up| - 2)
        && middle == before[current.name := current.(running := true)]
        && result == (if current.running then Result(0, 0, removed, 1) else Result(0, 1, removed, 0))
      requires ok ==>
        cutOver && after == middle - Names(Others(existing, current.name)) &&
        removed == |Others(existing, current.name)|
      requires current.running ==> Quiet(up) && middle == before
      requires Others(existing, current.name) == [] ==> drained == [] && after == middle
      ensures ServiceOutcome(ok, result, up + drained, existing, rs, spec, before, after)
      ensures WebOutcome(ok, up + drained, existing, rs, spec, after)
    {
      hide KeyOf, ClusterFor, OthersKept, ServiceTrace, DrainsAfterCutover, ServedBy, Creations, CutOverAt, CutOver,
           RolledBack, RemovalAsked, OnlyDrained, Snapshot;
      if cutOver {
        CutOverAtEnd(up, current.name, ClusterFor(rs), !current.running);
        CutOverAtExtends(up, drained, current.name, ClusterFor(rs), !current.running, |up| - 2);
      }
      AdoptTrace(existing, rs, spec, current, up, drained, before, middle, after);
      AdoptDrains(existing, rs, spec, current, up, drained);
      AdoptContainers(ok, existing, rs, spec, current, before, middle, after);
      if Undisturbed(existing, spec) {
        assert existing[1..] == [];
        assert Others(existing, current.name) == Others(existing[1..], current.name);
        assert up + drained == up;
      }
    }

    /** The web path when a container with the right hash exists. */
    method AdoptWeb(rs: RuntimeService, existing: seq<Container>, spec: Spec, current: Container)
      returns (ok: bool, result: Result, ghost seg: seq<Event>)
      requires Valid() && Snapshot(existing, ServiceKeyOf(rs), host.Workload())
      requires FirstMatch(existing, spec.hash) == Some(current)
      modifies host`containers, host`trace, host`owners, host`endpoints
      ensures Valid() && host.trace == old(host.trace) + seg
      ensures ServiceOutcome(ok, result, seg, existing, rs, spec, old(host.Workload()), host.Workload())
      ensures WebOutcome(ok, seg, existing, rs, spec, host.Workload())
      ensures WebTable(ok, seg, existing, rs, spec, old(host.endpoints))
      ensures host.referenced == old(host.referenced)
    {
      hide KeyOf, ClusterFor, CutOverAt, RemovalAsked, ServiceOutcome, WebOutcome, Others, FirstMatch, OnlyDrained,
           Names, TableAfter, WebTable;
      ghost var before, table := host.Workload(), host.endpoints;
      ghost var drained: seq<Event> := [];
      var removed := 0;
      var stale := StaleContainers(existing, current.name);
      ok, result, seg := BringUp(rs, current);
      ghost var up, cutOver, middle := seg, ok, host.Workload();
      StaleListed(existing, ServiceKeyOf(rs), current, before, middle);
      DrainNothing(Names(stale), middle);
      if stale == [] {
        NoNames(stale);
        assert middle - Names(stale) == middle;
      }
      assert up + [] == up;
      if ok && |stale| > 0 {
        ok := host.Attempt();
        if ok {
          ok, removed, drained := DrainAll(stale);
          result := result.(removed := removed);
          seg := seg + drained;
        }
      }
      AdoptOutcome(ok, result, removed, cutOver, existing, rs, spec, current, up, drained, before, middle,
                   host.Workload());
      AdoptTable(ok, cutOver, existing, rs, spec, current, up, drained, table, middle);
    }

    /** Creating the container of a service disturbs no other service. */
    lemma CreateKeepsOthers(rs: RuntimeService, spec: Spec, running: bool,
                            before: map<string, Container>, after: map<string, Container>)
      requires after == before || (spec.name !in before &&
                                   after == before[spec.name := Fresh(rs, spec).(running := running)])
      ensures OthersKept(ServiceKeyOf(rs), before, after)
    {
      hide ServiceKey;
    }

    lemma NoMatchIsDisturbed(existing: seq<Container>, spec: Spec)
      requires FirstMatch(existing, spec.hash).None?
      ensures !Undisturbed(existing, spec)
    {
    }

    /** Outcome of the web path when the new container could not be created. */
    lemma NotCreated(existing: seq<Container>, rs: RuntimeService, spec: Spec,
                     before: map<string, Container>, after: map<string, Container>)
      requires Snapshot(existing, ServiceKeyOf(rs), before) && FirstMatch(existing, spec.hash).None?
      requires after == before || (spec.name !in before &&
                                   after == before[spec.name := Fresh(rs, spec).(running := false)])
      ensures ServiceOutcome(false, NOTHING, [Create(spec.name, false)], existing, rs, spec, before, after)
      ensures WebOutcome(false, [Create(spec.name, false)], existing, rs, spec, after)
    {
      hide KeyOf, ClusterFor, OthersKept, FirstMatch;
      NoMatchIsDisturbed(existing, spec);
      CreateKeepsOthers(rs, spec, false, before, after);
    }

    /** Outcome of the web path when the new container was created but traffic
        could not be moved to it. */
    lemma TornDown(existing: seq<Container>, rs: RuntimeService, spec: Spec, cut: seq<Event>, down: seq<Event>,
                   before: map<string, Container>, after: map<string, Container>)
      requires Snapshot(existing, ServiceKeyOf(rs), before) && FirstMatch(existing, spec.hash).None?
      requires spec.name !in before && OnlyDrained({spec.name}, before[spec.name := Fresh(rs, spec)], after)
      requires Quiet(cut) && |down| == 2 && down[0].Stop? && down[1].Remove?
      requires down[0].name == spec.name && down[1].name == spec.name
      ensures ServiceOutcome(false, NOTHING, [Create(spec.name, true)] + cut + down, existing, rs, spec, before, after)
      ensures WebOutcome(false, [Create(spec.name, true)] + cut + down, existing, rs, spec, after)
    {
      hide KeyOf, ClusterFor, OthersKept, FirstMatch, CutOver, Creations;
      NoMatchIsDisturbed(existing, spec);
      var seg := [Create(spec.name, true)] + cut + down;
      assert after == before || after == before[spec.name := Fresh(rs, spec).(running := spec.name in after &&
                                                                              after[spec.name].running)];
      CreateKeepsOthers(rs, spec, spec.name in after && after[spec.name].running, before, after);
      forall e | e in seg && Drains(e) ensures e.name == spec.name {
        assert e in [Create(spec.name, true)] || e in cut || e in down;
      }
      assert forall i :: 0 <= i < |seg| ==> seg[i] in seg;
      assert seg[|seg| - 2] == down[0] && seg[|seg| - 1] == down[1];
    }

    /** Traces of the replacing web path once traffic has been moved. */
    lemma ReplaceTrace(existing: seq<Container>, rs: RuntimeService, spec: Spec, cut: seq<Event>, drained: seq<Event>,
                       before: map<string, Container>, after: map<string, Container>)
      requires Snapshot(existing, ServiceKeyOf(rs), before) && FirstMatch(existing, spec.hash).None?
      requires spec.name !in before
      requires Quiet(cut) && CutOver(cut, spec.name, ClusterFor(rs), true, |cut|)
      requires forall e <- drained :: Drains(e) && e.name in Names(existing)
      requires forall n <- before :: n !in after ==> RemovalAsked(drained, n)
      ensures ServiceTrace([Create(spec.name, true)] + cut + drained, existing, rs, spec, before, after)
      ensures DrainsAfterCutover([Create(spec.name, true)] + cut + drained, Names(existing),
                                 SuccessorOf(existing, rs, spec))
      ensures Creations([Create(spec.name, true)] + cut + drained) == 1
    {
      hide KeyOf, ClusterFor, CutOver, Creations, FirstMatch;
      var create := [Create(spec.name, true)];
      var up := create + cut;
      var seg := up + drained;
      CutOverShifts(create, cut, spec.name, ClusterFor(rs), true, |cut|);
      forall n | n in before && n !in after ensures RemovalAsked(seg, n) {
        RemovalAskedAppend(up, drained, n);
      }
      forall i | 0 <= i < |up| ensures !Drains(seg[i]) {
        assert seg[i] == up[i] && (up[i] in create || up[i] in cut);
      }
      forall i | 0 <= i < |seg| && Drains(seg[i]) ensures CutOver(seg, spec.name, ClusterFor(rs), true, i) {
        CutOverExtends(up, drained, spec.name, ClusterFor(rs), true, |up|, i);
      }
      forall e | e in seg && Drains(e) ensures e.name in Names(existing) {
        assert e in create || e in cut || e in drained;
      }
      CreatedOnce(spec.name, cut, drained);
    }

    lemma CreatedOnce(name: string, cut: seq<Event>, drained: seq<Event>)
      requires Quiet(cut) && forall e <- drained :: Drains(e)
      ensures Creations([Create(name, true)] + cut + drained) == 1
    {
      CreationsAppend([Create(name, true)], cut);
      CreationsAppend([Create(name, true)] + cut, drained);
      NoCreations(cut);
      NoCreations(drained);
      assert Creations([Create(name, true)][..0]) == 0;
    }

    /** What it leaves of the containers. */
    lemma ReplaceContainers(ok: bool, existing: seq<Container>, rs: RuntimeService, spec: Spec,
                            before: map<string, Container>, after: map<string, Container>)
      requires Snapshot(existing, ServiceKeyOf(rs), before) && FirstMatch(existing, spec.hash).None?
      requires spec.name !in before && OnlyDrained(Names(existing), before[spec.name := Fresh(rs, spec)], after)
      requires ok ==> after == before[spec.name := Fresh(rs, spec)] - Names(existing)
      ensures OthersKept(ServiceKeyOf(rs), before, after)
      ensures ok ==> ServedBy(ServiceKeyOf(rs), Chosen(existing, rs, spec), after)
      ensures ok ==> |after| + |existing| == |before| + 1
    {
      hide KeyOf, ClusterFor, ServedBy, OthersKept, Snapshot, OnlyDrained, Names;
      ReplaceKeepsOthers(existing, rs, spec, before, after);
      if ok {
        FreshKey(rs, spec);
        DrainSetup(existing, rs, spec, before);
        FreshNotListed(existing, rs, spec, before);
        assert after == (before - Names(existing))[spec.name := Fresh(rs, spec)];
        FreshIsServed(existing, Fresh(rs, spec), ServiceKeyOf(rs), before, after);
        forall i | 0 <= i < |existing| ensures existing[i].name in before[spec.name := Fresh(rs, spec)] {
          assert existing[i] in existing;
        }
        DrainedSize(existing, |existing|, before[spec.name := Fresh(rs, spec)]);
        assert existing[..|existing|] == existing;
        MapPlusSize(before, spec.name, Fresh(rs, spec));
      }
    }

    lemma FreshNotListed(existing: seq<Container>, rs: RuntimeService, spec: Spec, before: map<string, Container>)
      requires Snapshot(existing, ServiceKeyOf(rs), before) && spec.name !in before
      ensures spec.name !in Names(existing)
    {
      hide KeyOf, ClusterFor;
    }

    lemma FreshKey(rs: RuntimeService, spec: Spec)
      ensures KeyOf(Fresh(rs, spec)) == ServiceKeyOf(rs)
    {
    }

    lemma ReplaceKeepsOthers(existing: seq<Container>, rs: RuntimeService, spec: Spec,
                             before: map<string, Container>, after: map<string, Container>)
      requires Snapshot(existing, ServiceKeyOf(rs), before)
      requires spec.name !in before && OnlyDrained(Names(existing), before[spec.name := Fresh(rs, spec)], after)
      ensures OthersKept(ServiceKeyOf(rs), before, after)
    {
      hide ServiceKey;
      var key := ServiceKeyOf(rs);
      FreshKey(rs, spec);
      forall n | n in before && n in Names(existing) ensures KeyOf(before[n]) == key {
        var c :| c in existing && c.name == n;
      }
      var middle := before[spec.name := Fresh(rs, spec)];
      forall n | n in after ensures KeyOf(after[n]) == KeyOf(middle[n]) {
        assert after[n] == middle[n] || after[n] == middle[n].(running := after[n].running);
      }
    }

    /** Outcome of the replacing web path once traffic has been moved. */
    lemma ReplaceOutcome(ok: bool, removed: nat, result: Result,
                         existing: seq<Container>, rs: RuntimeService, spec: Spec, cut: seq<Event>, drained: seq<Event>,
                         before: map<string, Container>, after: map<string, Container>)
      requires Snapshot(existing, ServiceKeyOf(rs), before) && FirstMatch(existing, spec.hash).None?
      requires spec.name !in before && OnlyDrained(Names(existing), before[spec.name := Fresh(rs, spec)], after)
      requires ok ==> after == before[spec.name := Fresh(rs, spec)] - Names(existing) && removed == |existing|
      requires ok ==> result == (if |existing| > 0 then Result(0, 1, removed, 0) else Result(1, 0, removed, 0))
      requires Quiet(cut) && |cut| >= 2 && CutOverAt(cut, spec.name, ClusterFor(rs), true, |cut| - 2)
      requires forall e <- drained :: Drains(e) && e.name in Names(existing)
      requires forall n <- before :: n !in after ==> RemovalAsked(drained, n)
      ensures ServiceOutcome(ok, result, [Create(spec.name, true)] + cut + drained, existing, rs, spec, before, after)
      ensures WebOutcome(ok, [Create(spec.name, true)] + cut + drained, existing, rs, spec, after)
    {
      hide KeyOf, ClusterFor, OthersKept, ServiceTrace, DrainsAfterCutover, ServedBy, Creations, CutOverAt, CutOver,
           RolledBack, RemovalAsked, OnlyDrained, Snapshot, FirstMatch, Names;
      NoMatchIsDisturbed(existing, spec);
      var create := [Create(spec.name, true)];
      CutOverAtShifts(create, cut, spec.name, ClusterFor(rs), true, |cut| - 2);
      CutOverAtExtends(create + cut, drained, spec.name, ClusterFor(rs), true, |create| + |cut| - 2);
      CutOverAtEnd(cut, spec.name, ClusterFor(rs), true);
      CutOverShifts(create, cut, spec.name, ClusterFor(rs), true, |cut|);
      CutOverExtends(create + cut, drained, spec.name, ClusterFor(rs), true, |create + cut|, |create + cut + drained|);
      ReplaceTrace(existing, rs, spec, cut, drained, before, after);
      ReplaceContainers(ok, existing, rs, spec, before, after);
    }

    lemma DrainSetup(existing: seq<Container>, rs: RuntimeService, spec: Spec, before: map<string, Container>)
      requires Snapshot(existing, ServiceKeyOf(rs), before) && spec.name !in before
      ensures DistinctNames(existing)
      ensures forall c <- existing ::
        c.name in before[spec.name := Fresh(rs, spec)] &&
        before[spec.name := Fresh(rs, spec)][c.name] == c
    {
      hide KeyOf, ClusterFor;
    }

    /** The web path when a new container is needed. */
    method ReplaceWeb(rs: RuntimeService, existing: seq<Container>, spec: Spec)
      returns (ok: bool, result: Result, ghost seg: seq<Event>)
      requires Valid() && Snapshot(existing, ServiceKeyOf(rs), host.Workload())
      requires FirstMatch(existing, spec.hash).None? && specFor(rs) == Some(spec)
      modifies host`containers, host`trace, host`owners, host`endpoints
      ensures Valid() && host.trace == old(host.trace) + seg
      ensures ServiceOutcome(ok, result, seg, existing, rs, spec, old(host.Workload()), host.Workload())
      ensures WebOutcome(ok, seg, existing, rs, spec, host.Workload())
      ensures WebTable(ok, seg, existing, rs, spec, old(host.endpoints))
      ensures host.referenced == old(host.referenced)
    {
      hide KeyOf, ClusterFor, CutOverAt, RemovalAsked, ServiceOutcome, WebOutcome, FirstMatch, OnlyDrained, Names,
           Snapshot, TableAfter, WebTable, EndsFailing;
      ghost var before, table := host.Workload(), host.endpoints;
      result := NOTHING;
      var removed := 0;
      var created := host.CreateAndStart(Fresh(rs, spec));
      ghost var create := [Create(spec.name, created)];
      ghost var middle := host.Workload();
      seg := create;
      ok := created;
      if !created {
        NotCreated(existing, rs, spec, before, middle);
        NothingPointed(existing, rs, spec, table);
        return;
      }
      ghost var cut;
      ok, cut := CutoverWeb(spec.name, rs, true);
      seg := create + cut;
      ghost var t := host.trace;
      assert t == old(host.trace) + (create + cut);
      if !ok {
        ghost var down := TearDown(spec.name);
        seg := seg + down;
        assert host.trace == old(host.trace) + seg by { assert host.trace == t + down; }
        TornDown(existing, rs, spec, cut, down, before, host.Workload());
        TornDownTable(existing, rs, spec, cut, down, table);
        return;
      }
      ghost var drained: seq<Event> := [];
      DrainSetup(existing, rs, spec, before);
      DrainNothing(Names(existing), middle);
      assert seg + [] == seg;
      if |existing| > 0 {
        ok := host.Attempt();
        if ok {
          ok, removed, drained := DrainAll(existing);
          result := result.(removed := removed);
          seg := seg + drained;
        }
        if ok { result := result.(updated := 1); }
      } else {
        NoNames(existing);
        assert middle - Names(existing) == middle;
        result := result.(created := 1);
      }
      assert host.trace == old(host.trace) + seg by {
        assert host.trace == t + drained && seg == create + cut + drained;
      }
      ReplaceOutcome(ok, removed, result, existing, rs, spec, cut, drained, before, host.Workload());
      ReplaceTable(ok, existing, rs, spec, cut, drained, table, before);
    }

    // ---- workers and accessories: no traffic to move ----

    lemma WorkerAdoptOutcome(ok: bool, result: Result, removed: nat, started: bool, existing: seq<Container>,
                             rs: RuntimeService, spec: Spec, current: Container, up: seq<Event>, drained: seq<Event>,
                             before: map<string, Container>, middle: map<string, Container>,
                             after: map<string, Container>)
      requires Snapshot(existing, ServiceKeyOf(rs), before) && FirstMatch(existing, spec.hash) == Some(current)
      requires OnlyDrained({current.name}, before, middle) && current.name in middle
      requires OnlyDrained(Names(Others(existing, current.name)), middle, after)
      requires forall e <- up :: !Drains(e) && !e.Create?
      requires forall e <- drained :: Drains(e) && e.name in Names(Others(existing, current.name))
      requires forall n <- middle :: n !in after ==> RemovalAsked(drained, n)
      requires started ==> middle == before[current.name := current.(running := true)]
      requires ok ==>
        started && after == middle - Names(Others(existing, current.name)) &&
        removed == |Others(existing, current.name)|
      requires ok ==> result == (if current.running then Result(0, 0, removed, 1) else Result(0, 1, removed, 0))
      requires current.running ==> up == [] && middle == before
      requires Others(existing, current.name) == [] ==> drained == [] && after == middle
      ensures ServiceOutcome(ok, result, up + drained, existing, rs, spec, before, after)
    {
      hide KeyOf, ClusterFor, OthersKept, ServiceTrace, ServedBy, Creations, RemovalAsked, OnlyDrained, Snapshot;
      AdoptTrace(existing, rs, spec, current, up, drained, before, middle, after);
      AdoptContainers(ok, existing, rs, spec, current, before, middle, after);
      if Undisturbed(existing, spec) {
        assert existing[1..] == [];
        assert Others(existing, current.name) == Others(existing[1..], current.name);
        assert up + drained == [];
      }
    }

    method EnsureStarted(current: Container) returns (ok: bool, result: Result, ghost seg: seq<Event>)
      requires Valid() && current.name in host.Workload() && host.Workload()[current.name] == current
      modifies host`containers, host`trace
      ensures Valid() && host.trace == old(host.trace) + seg
      ensures OnlyDrained({current.name}, old(host.Workload()), host.Workload()) && current.name in host.Workload()
      ensures forall e <- seg :: !Drains(e) && !e.Create?
      ensures ok ==> host.Workload() == old(host.Workload())[current.name := current.(running := true)]
      ensures ok ==> result == (if current.running then Result(0, 0, 0, 1) else Result(0, 1, 0, 0))
      ensures current.running ==> seg == [] && host.Workload() == old(host.Workload())
    {
      ok, result, seg := true, NOTHING, [];
      if current.running {
        result := result.(untouched := 1);
      } else {
        ok := host.Start(current.name);
        seg := [Event.Start(current.name, ok)];
        if ok { result := result.(updated := 1); }
      }
    }

    method AdoptWorker(rs: RuntimeService, existing: seq<Container>, spec: Spec, current: Container)
      returns (ok: bool, result: Result, ghost seg: seq<Event>)
      requires Valid() && Snapshot(existing, ServiceKeyOf(rs), host.Workload())
      requires FirstMatch(existing, spec.hash) == Some(current)
      modifies host`containers, host`trace
      ensures Valid() && host.trace == old(host.trace) + seg
      ensures ServiceOutcome(ok, result, seg, existing, rs, spec, old(host.Workload()), host.Workload())
    {
      hide KeyOf, ClusterFor, RemovalAsked, ServiceOutcome, Others, FirstMatch, Names, OnlyDrained;
      ghost var before := host.Workload();
      ghost var drained: seq<Event> := [];
      var removed := 0;
      var stale := StaleContainers(existing, current.name);
      ok, result, seg := EnsureStarted(current);
      ghost var up, started, middle := seg, ok, host.Workload();
      StaleListed(existing, ServiceKeyOf(rs), current, before, middle);
      DrainNothing(Names(stale), middle);
      if stale == [] {
        NoNames(stale);
        assert middle - Names(stale) == middle;
      }
      assert up + [] == up;
      ghost var t := host.trace;
      if ok && |stale| > 0 {
        ok, removed, drained := DrainAll(stale);
        result := result.(removed := removed);
        seg := seg + drained;
      }
      assert host.trace == old(host.trace) + seg by { assert t == old(host.trace) + up && host.trace == t + drained; }
      WorkerAdoptOutcome(ok, result, removed, started, existing, rs, spec, current, up, drained, before, middle,
                         host.Workload());
    }

    lemma OthersKeptTwice(key: string, a: map<string, Container>, b: map<string, Container>, c: map<string, Container>)
      requires OthersKept(key, a, b) && OthersKept(key, b, c)
      ensures OthersKept(key, a, c)
    {
      hide KeyOf, ClusterFor;
    }

    lemma WorkerDrained(result: Result, existing: seq<Container>, rs: RuntimeService, spec: Spec, drained: seq<Event>,
                        before: map<string, Container>, middle: map<string, Container>)
      requires Snapshot(existing, ServiceKeyOf(rs), before) && OnlyDrained(Names(existing), before, middle)
      requires forall e <- drained :: Drains(e) && e.name in Names(existing)
      requires forall n <- before :: n !in middle ==> RemovalAsked(drained, n)
      requires FirstMatch(existing, spec.hash).None?
      ensures ServiceOutcome(false, result, drained, existing, rs, spec, before, middle)
    {
      hide KeyOf, ClusterFor, OthersKept, RemovalAsked, Snapshot, OnlyDrained, FirstMatch;
      NoMatchIsDisturbed(existing, spec);
      DrainKeepsOthers(existing, ServiceKeyOf(rs), before, middle);
    }

    lemma WorkerReplaceOutcome(ok: bool, result: Result, existing: seq<Container>, rs: RuntimeService, spec: Spec,
                               drained: seq<Event>, before: map<string, Container>, middle: map<string, Container>,
                               after: map<string, Container>)
      requires Snapshot(existing, ServiceKeyOf(rs), before) && FirstMatch(existing, spec.hash).None?
      requires OnlyDrained(Names(existing), before, middle) && middle == before - Names(existing)
      requires forall e <- drained :: Drains(e) && e.name in Names(existing)
      requires forall n <- before :: n !in middle ==> RemovalAsked(drained, n)
      requires after == middle || (spec.name !in middle &&
                                   after == middle[spec.name := Fresh(rs, spec).(running := ok)])
      requires ok ==> spec.name !in middle && after == middle[spec.name := Fresh(rs, spec)]
      requires ok ==> result == (if |existing| > 0 then Result(0, 1, |existing|, 0) else Result(1, 0, 0, 0))
      ensures ServiceOutcome(ok, result, drained + [Create(spec.name, ok)], existing, rs, spec, before, after)
    {
      hide KeyOf, ClusterFor, OthersKept, RemovalAsked, OnlyDrained, FirstMatch, ServedBy, Creations, Names, Snapshot;
      var seg := drained + [Create(spec.name, ok)];
      NoMatchIsDisturbed(existing, spec);
      DrainKeepsOthers(existing, ServiceKeyOf(rs), before, middle);
      CreateKeepsOthers(rs, spec, ok, middle, after);
      OthersKeptTwice(ServiceKeyOf(rs), before, middle, after);
      forall n | n in before && n !in after ensures RemovalAsked(seg, n) {
        RemovalAskedAppend(drained, [Create(spec.name, ok)], n);
      }
      if ok {
        WorkerReplaced(existing, rs, spec, before, middle, after);
        CreationsAppend(drained, [Create(spec.name, ok)]);
        NoCreations(drained);
        OneCreation(spec.name);
      }
    }

    lemma WorkerReplaced(existing: seq<Container>, rs: RuntimeService, spec: Spec,
                         before: map<string, Container>, middle: map<string, Container>, after: map<string, Container>)
      requires Snapshot(existing, ServiceKeyOf(rs), before) && FirstMatch(existing, spec.hash).None?
      requires middle == before - Names(existing) && spec.name !in middle &&
        after == middle[spec.name := Fresh(rs, spec)]
      ensures ServedBy(ServiceKeyOf(rs), Chosen(existing, rs, spec), after)
      ensures |after| + |existing| == |before| + 1
    {
      hide KeyOf, ClusterFor, FirstMatch, ServedBy, Names, Snapshot;
      FreshKey(rs, spec);
      FreshIsServed(existing, Fresh(rs, spec), ServiceKeyOf(rs), before, after);
      SnapshotListed(existing, ServiceKeyOf(rs), before);
      DrainedSize(existing, |existing|, before);
      assert existing[..|existing|] == existing;
      MapPlusSize(middle, spec.name, Fresh(rs, spec));
    }

    lemma SnapshotListed(existing: seq<Container>, key: string, before: map<string, Container>)
      requires Snapshot(existing, key, before)
      ensures DistinctNames(existing)
      ensures forall c <- existing :: c.name in before && before[c.name] == c
      ensures forall i :: 0 <= i < |existing| ==> existing[i].name in before
    {
      hide KeyOf, ClusterFor;
      forall i | 0 <= i < |existing| ensures existing[i].name in before { assert existing[i] in existing; }
    }

    lemma OneCreation(name: string)
      ensures Creations([Create(name, true)]) == 1
    {
      assert [Create(name, true)][..0] == [];
    }

    method ReplaceWorker(rs: RuntimeService, existing: seq<Container>, spec: Spec)
      returns (ok: bool, result: Result, ghost seg: seq<Event>)
      requires Valid() && Snapshot(existing, ServiceKeyOf(rs), host.Workload())
      requires FirstMatch(existing, spec.hash).None? && specFor(rs) == Some(spec)
      modifies host`containers, host`trace
      ensures Valid() && host.trace == old(host.trace) + seg
      ensures ServiceOutcome(ok, result, seg, existing, rs, spec, old(host.Workload()), host.Workload())
    {
      hide KeyOf, ClusterFor, RemovalAsked, ServiceOutcome, FirstMatch, Names, OnlyDrained, Snapshot;
      ghost var before := host.Workload();
      SnapshotListed(existing, ServiceKeyOf(rs), before);
      result := NOTHING;
      var removed;
      ok, removed, seg := DrainAll(existing);
      ghost var drained, middle := seg, host.Workload();
      result := result.(removed := removed);
      if !ok {
        WorkerDrained(result, existing, rs, spec, drained, before, middle);
        return;
      }
      ok := host.CreateAndStart(Fresh(rs, spec));
      seg := drained + [Create(spec.name, ok)];
      if ok {
        result := if |existing| > 0 then result.(updated := 1) else result.(created := 1);
      }
      WorkerReplaceOutcome(ok, result, existing, rs, spec, drained, before, middle, host.Workload());
    }

    // ---- one service ----

    method EnsureImage() returns (ok: bool) {
      var inspected := host.Attempt();
      if !inspected { return false; }
      var exists_: bool := *;
      if exists_ { return true; }
      var authorised := host.Attempt();
      if !authorised { return false; }
      ok := host.Attempt();
    }

    /** `reconcileService`: derive the container, make sure of the image and, for
        a web service, of Envoy, then hand over to the web or the plain path.
        `ingress` is what the pass needs to know of the ingress. */
    method ReconcileService(rs: RuntimeService, existing: seq<Container>, ingress: IngressView)
      returns (ok: bool, result: Result, ghost seg: seq<Event>)
      requires Valid() && Snapshot(existing, ServiceKeyOf(rs), host.Workload())
      modifies host
      ensures Valid() && host.trace == old(host.trace) + seg
      ensures specFor(rs).None? ==> !ok && seg == [] && host.Workload() == old(host.Workload())
      ensures specFor(rs).Some? ==>
        ServiceOutcome(ok, result, seg, existing, rs, specFor(rs).value, old(host.Workload()), host.Workload())
      ensures specFor(rs).Some? && rs.serviceKind == KIND_WEB && seg != [] ==>
        WebOutcome(ok, seg, existing, rs, specFor(rs).value, host.Workload())
      ensures ok ==> seg != [] || rs.serviceKind != KIND_WEB
      ensures if specFor(rs).Some? && rs.serviceKind == KIND_WEB
              then EndpointOutcome(seg, Chosen(existing, rs, specFor(rs).value).name, ClusterFor(rs),
                                   host.defaultCluster,
                                   old(host.endpoints), host.endpoints, host.Workload()) &&
                   (ok ==> Follows(seg, rs, ingress.clusters, old(host.referenced), old(host.endpoints)))
              else host.endpoints == old(host.endpoints) && host.referenced == old(host.referenced)
      ensures ok && host.certFailures > old(host.certFailures) ==> ingress.tlsErrorNonFatal
    {
      hide KeyOf, ClusterFor, ServiceOutcome, WebOutcome, FirstMatch, Names, Snapshot, WebTable, EndpointOutcome,
           Follows;
      ok, result, seg := false, NOTHING, [];
      ghost var before, entries, previous := host.Workload(), host.endpoints, host.referenced;
      if specFor(rs).None? { return; }
      var spec := specFor(rs).value;
      NothingDone(existing, rs, spec, before);
      NothingPointedYet(existing, rs, spec, entries);
      var imageOk := EnsureImage();
      if !imageOk { return; }
      if rs.serviceKind == KIND_WEB {
        if !hasEnvoy { return; }
        var envoyOk := host.EnsureEnvoy(ingress.clusters);
        assert Within(host.endpoints, entries);
        NothingPointedYet(existing, rs, spec, entries);
        if !envoyOk { return; }
        if hasCerts {
          var certOk := host.EnsureCertificate();
          if !certOk && !ingress.tlsErrorNonFatal { return; }
        }
        envoyOk := host.EnsureEnvoy(ingress.clusters);
        assert Within(host.endpoints, entries);
        NothingPointedYet(existing, rs, spec, entries);
        if !envoyOk { return; }
        ghost var table := host.endpoints;
        match FirstMatch(existing, spec.hash) {
          case Some(current) => ok, result, seg := AdoptWeb(rs, existing, spec, current);
          case None => ok, result, seg := ReplaceWeb(rs, existing, spec);
        }
        if ok { WebTouchesTrace(seg, existing, rs, spec, host.Workload()); }
        WebTableFrom(ok, seg, existing, rs, spec, previous, entries, table);
      } else {
        match FirstMatch(existing, spec.hash) {
          case Some(current) => ok, result, seg := AdoptWorker(rs, existing, spec, current);
          case None => ok, result, seg := ReplaceWorker(rs, existing, spec);
        }
      }
    }

    lemma WebTouchesTrace(seg: seq<Event>, existing: seq<Container>, rs: RuntimeService, spec: Spec,
                          after: map<string, Container>)
      requires WebOutcome(true, seg, existing, rs, spec, after)
      ensures seg != []
    {
    }

    /** After a successful run Envoy follows the present ingress: the service's
        cluster has an entry if a route refers to it, and so has every cluster that
        had one and that the previous ingress referenced as well. */
    ghost predicate Follows(seg: seq<Event>, rs: RuntimeService, clusters: set<string>, previous: set<string>,
                            before: map<string, Endpoint>)
      reads host
    {
      && Repoints(seg) && host.referenced == clusters
      && (ClusterKey(ClusterFor(rs), host.defaultCluster) in clusters ==>
          ClusterKey(ClusterFor(rs), host.defaultCluster) in host.endpoints)
      && (previous == clusters ==> forall c <- before :: c in clusters ==> c in host.endpoints)
    }

    /** Ensuring Envoy beforehand can only forget entries. */
    lemma WebTableFrom(ok: bool, seg: seq<Event>, existing: seq<Container>, rs: RuntimeService, spec: Spec,
                       previous: set<string>, before: map<string, Endpoint>, middle: map<string, Endpoint>)
      requires WebTable(ok, seg, existing, rs, spec, middle) && Within(middle, before)
      requires previous == host.referenced ==> forall c <- before :: c in host.referenced ==> c in middle
      ensures EndpointOutcome(seg, Chosen(existing, rs, spec).name, ClusterFor(rs), host.defaultCluster, before,
                              host.endpoints,
                              host.Workload())
      ensures ok ==> Follows(seg, rs, host.referenced, previous, before)
    {
      hide EndpointOutcome;
      OutcomeFromLess(seg, Chosen(existing, rs, spec).name, ClusterFor(rs), host.defaultCluster, before, middle,
                      host.endpoints, host.Workload());
    }

    lemma NothingPointedYet(existing: seq<Container>, rs: RuntimeService, spec: Spec, before: map<string, Endpoint>)
      requires Within(host.endpoints, before)
      ensures EndpointOutcome([], Chosen(existing, rs, spec).name, ClusterFor(rs), host.defaultCluster, before,
                              host.endpoints,
                              host.Workload())
    {
    }

    lemma NothingDone(existing: seq<Container>, rs: RuntimeService, spec: Spec, before: map<string, Container>)
      ensures ServiceOutcome(false, NOTHING, [], existing, rs, spec, before, before)
    {
      hide KeyOf, ClusterFor, Names;
    }

    // ---- the whole pass ----

    /** The container that serves key `k` after a successful pass. */
    ghost function Plan(list: seq<Container>, desired: map<string, RuntimeService>, k: string): Container
      requires k in desired && specFor(desired[k]).Some?
    {
      Chosen(ExistingOf(list, k), desired[k], specFor(desired[k]).value)
    }

    /** The containers of desired web services, each with the cutover that has to
        come before it is drained. */
    ghost function Victims(list: seq<Container>, pre: map<string, Container>,
                           desired: map<string, RuntimeService>): map<string, Successor> {
      map n | n in pre && pre[n].service != "" && IsWebKey(desired, KeyOf(pre[n])) ::
        SuccessorOf(ExistingOf(list, KeyOf(pre[n])), desired[KeyOf(pre[n])], specFor(desired[KeyOf(pre[n])]).value)
    }

    ghost predicate IsWebKey(desired: map<string, RuntimeService>, k: string) {
      k in desired && desired[k].serviceKind == KIND_WEB && specFor(desired[k]).Some?
    }

    ghost predicate Served(list: seq<Container>, desired: map<string, RuntimeService>, done: set<string>,
                           now: map<string, Container>) {
      forall k <- done :: k in desired && specFor(desired[k]).Some? && ServedBy(k, Plan(list, desired, k), now)
    }

    lemma ServedStep(list: seq<Container>, desired: map<string, RuntimeService>, done: set<string>, k: string,
                     now: map<string, Container>, next: map<string, Container>)
      requires Served(list, desired, done, now) && OthersKept(k, now, next) && k !in done
      ensures Served(list, desired, done, next)
    {
      hide KeyOf, ClusterFor, Plan;
      forall k' | k' in done ensures ServedBy(k', Plan(list, desired, k'), next) {
        ServedElsewhere(k', Plan(list, desired, k'), k, now, next);
      }
    }

    lemma ServedElsewhere(k': string, c: Container, k: string, now: map<string, Container>,
                          next: map<string, Container>)
      requires ServedBy(k', c, now) && OthersKept(k, now, next) && k != k'
      ensures ServedBy(k', c, next)
    {
      hide KeyOf, ClusterFor;
    }

    /** Safety of the trace so far extends over the handling of one more service. */
    lemma TraceStep(seg: seq<Event>, part: seq<Event>, list: seq<Container>, desired: map<string, RuntimeService>,
                    k: string, pre: map<string, Container>, now: map<string, Container>, next: map<string, Container>)
      requires k in desired && specFor(desired[k]).Some?
      requires forall c <- list :: c.name in pre ==> pre[c.name] == c
      requires Snapshot(ExistingOf(list, k), k, now)
      requires DistinctNames(list)
      requires ZeroGap(seg, Victims(list, pre, desired)) && Accounted(Victims(list, pre, desired), pre, now, seg)
      requires OthersKept(k, now, next)
      requires ServiceTrace(part, ExistingOf(list, k), desired[k], specFor(desired[k]).value, now, next)
      requires IsWebKey(desired, k) ==>
        DrainsAfterCutover(part, Names(ExistingOf(list, k)),
                           SuccessorOf(ExistingOf(list, k), desired[k], specFor(desired[k]).value))
      ensures ZeroGap(seg + part, Victims(list, pre, desired)) &&
        Accounted(Victims(list, pre, desired), pre, next, seg + part)
    {
      hide ServiceKey, CutOver, FirstMatch, Snapshot;
      var victims := Victims(list, pre, desired);
      var existing := ExistingOf(list, k);
      forall i | 0 <= i < |part| && Drains(part[i]) && part[i].name in victims
        ensures var s := victims[part[i].name];
                CutOver(seg, s.name, s.cluster, s.probed, |seg|) || CutOver(part, s.name, s.cluster, s.probed, i)
      {
        var n := part[i].name;
        assert part[i] in part;
        if n in Names(existing) {
          var c :| c in existing && c.name == n;
          ExistingMembers(list, k);
          assert pre[n] == c;
        } else {
          RemovedAfterCutover(seg, victims, n);
        }
      }
      ZeroGapAppend(seg, part, victims);
      forall n | n in victims
        ensures RemovalAsked(seg + part, n) || (n in next && KeyOf(next[n]) == KeyOf(pre[n]))
      {
        if RemovalAsked(seg, n) || RemovalAsked(part, n) { RemovalAskedAppend(seg, part, n); }
      }
    }

    lemma RemovedAfterCutover(seg: seq<Event>, victims: map<string, Successor>, n: string)
      requires ZeroGap(seg, victims) && n in victims && RemovalAsked(seg, n)
      ensures var s := victims[n]; CutOver(seg, s.name, s.cluster, s.probed, |seg|)
    {
      var s := victims[n];
      var j :| 0 <= j < |seg| && seg[j].Remove? && seg[j].name == n;
      var p :| 0 <= p && p + 1 < j && CutOverAt(seg, s.name, s.cluster, s.probed, p);
    }

    /** Not up for pruning. */
    predicate Spared(c: Container) {
      c.name == "" || IsPersistentEnvoy(c, protectedNames)
    }

    /** Nothing to do: every desired service is served by one running container
        with its hash, and everything else is spared. */
    ghost predicate Settled(now: map<string, Container>, desired: map<string, RuntimeService>) {
      && (forall k <- desired :: specFor(desired[k]).Some? &&
            exists c :: ServedBy(k, c, now) && c.running && c.hash == specFor(desired[k]).value.hash)
      && (forall n <- now :: KeyOf(now[n]) in desired || Spared(now[n]))
    }

    /** Exactly one container is of this service; it runs, and with the expected hash. */
    ghost predicate RunsOne(rs: RuntimeService, now: map<string, Container>) {
      var key := ServiceKey(rs.environmentName, rs.serviceName);
      && specFor(rs).Some?
      && exists n <- now :: KeyOf(now[n]) == key && now[n].running && now[n].hash == specFor(rs).value.hash &&
           forall m <- now :: KeyOf(now[m]) == key ==> m == n
    }

    lemma KeyTells(services: seq<RuntimeService>, a: RuntimeService, b: RuntimeService)
      requires KeysDistinct(services) && a in services && b in services && ServiceKeyOf(a) == ServiceKeyOf(b)
      ensures a == b
    {
      hide ServiceKey;
      var i :| 0 <= i < |services| && services[i] == a;
      var j :| 0 <= j < |services| && services[j] == b;
    }

    lemma ServedRuns(list: seq<Container>, services: seq<RuntimeService>, now: map<string, Container>)
      requires NamesPresent(services) && KeysDistinct(services)
      requires Served(list, DesiredMap(services), DesiredMap(services).Keys, now)
      ensures forall rs <- services :: RunsOne(rs, now)
    {
      hide ServiceKey, Plan, Converged, NamesPresent, KeysDistinct, DesiredMap;
      DesiredMapSpec(services);
      var desired := DesiredMap(services);
      forall rs | rs in services ensures RunsOne(rs, now) {
        var k := ServiceKeyOf(rs);
        KeyTells(services, desired[k], rs);
        assert ServedBy(k, Plan(list, desired, k), now);
        PlanRuns(list, desired, k);
      }
    }

    lemma SettledIsUndisturbed(existing: seq<Container>, k: string, spec: Spec, c: Container,
                               now: map<string, Container>)
      requires Snapshot(existing, k, now) && ServedBy(k, c, now) && c.running && c.hash == spec.hash
      ensures Undisturbed(existing, spec)
    {
      hide KeyOf, ClusterFor;
      assert now[c.name] in existing;
      forall j | 0 <= j < |existing| ensures existing[j] == c {
        assert existing[j] in existing;
      }
      assert |existing| > 1 ==> existing[0].name != existing[1].name;
    }

    /** `groups` files the listed containers by service. */
    ghost predicate Grouped(groups: map<string, seq<Container>>, list: seq<Container>) {
      forall k :: ExistingOf(list, k) == if k in groups then groups[k] else []
    }

    lemma GroupAt(groups: map<string, seq<Container>>, list: seq<Container>, k: string)
      requires Grouped(groups, list)
      ensures ExistingOf(list, k) == if k in groups then groups[k] else []
    {
      hide ExistingOf;
    }

    method GroupByService(list: seq<Container>) returns (groups: map<string, seq<Container>>)
      ensures Grouped(groups, list)
    {
      hide ServiceKey;
      groups := map[];
      for i := 0 to |list|
        invariant forall k :: ExistingOf(list[..i], k) == if k in groups then groups[k] else []
      {
        assert list[..i + 1] == list[..i] + [list[i]];
        forall k ensures ExistingOf(list[..i + 1], k) ==
                         ExistingOf(list[..i], k) + (if list[i].service != "" && KeyOf(list[i]) == k then [list[i]]
                                                     else []) {
          ExistingAppend(list[..i], list[i], k);
        }
        if list[i].service == "" { continue; }
        var key := KeyOf(list[i]);
        groups := groups[key := (if key in groups then groups[key] else []) + [list[i]]];
      }
      assert list[..|list|] == list;
    }

    lemma {:induction false} ExistingAppend(list: seq<Container>, c: Container, k: string)
      ensures ExistingOf(list + [c], k) == ExistingOf(list, k) + (if c.service != "" && KeyOf(c) == k then [c] else [])
    {
      hide ServiceKey;
      if list == [] {
        assert ([c])[1..] == [] && list + [c] == [c];
      } else {
        ExistingAppend(list[1..], c, k);
        assert (list + [c])[1..] == list[1..] + [c];
      }
    }

    // ---- where the endpoints lead after a pass ----

    /** The cluster that the endpoint of a web service is filed under. */
    function ClusterOf(rs: RuntimeService): string {
      ClusterKey(ClusterFor(rs), host.defaultCluster)
    }

    /** Service `k` is a web service that traffic for cluster `c` is meant for: any
        for the default cluster, otherwise one with that cluster. */
    ghost predicate Owns(desired: map<string, RuntimeService>, k: string, c: string) {
      IsWebKey(desired, k) && (c == host.defaultCluster || c == ClusterOf(desired[k]))
    }

    /** There is an entry for `c`, and it leads to the container that one of the
        services `done` that owns it was planned to be served by. */
    ghost predicate LeadsHome(list: seq<Container>, desired: map<string, RuntimeService>, done: set<string>, c: string,
                              table: map<string, Endpoint>) {
      c in table && exists k <- done :: Owns(desired, k, c) && table[c].container == Plan(list, desired, k).name
    }

    /** What holds for each web service among those `done`: the default cluster
        leads home, and the service's own cluster does if it has an entry, which it
        has if a route refers to it. */
    ghost predicate Led(list: seq<Container>, desired: map<string, RuntimeService>, done: set<string>,
                        clusters: set<string>, table: map<string, Endpoint>, referenced: set<string>) {
      forall k <- done :: IsWebKey(desired, k) ==>
        && referenced == clusters && LeadsHome(list, desired, done, host.defaultCluster, table)
        && (ClusterOf(desired[k]) in clusters ==> ClusterOf(desired[k]) in table)
        && (ClusterOf(desired[k]) in table ==> LeadsHome(list, desired, done, ClusterOf(desired[k]), table))
    }

    lemma LedStarts(list: seq<Container>, desired: map<string, RuntimeService>, clusters: set<string>)
      ensures Led(list, desired, desired.Keys - desired.Keys, clusters, host.endpoints, host.referenced)
    {
      assert desired.Keys - desired.Keys == {};
    }

    lemma LedStep(list: seq<Container>, desired: map<string, RuntimeService>, done: set<string>, k: string,
                  clusters: set<string>, table: map<string, Endpoint>, referenced: set<string>, part: seq<Event>)
      requires Led(list, desired, done, clusters, table, referenced) && k in desired && specFor(desired[k]).Some?
      requires
        if IsWebKey(desired, k) then
          EndpointOutcome(part, Plan(list, desired, k).name, ClusterFor(desired[k]), host.defaultCluster, table,
                          host.endpoints,
                          host.Workload()) &&
          Follows(part, desired[k], clusters, referenced, table)
        else host.endpoints == table && host.referenced == referenced
      ensures Led(list, desired, done + {k}, clusters, host.endpoints, host.referenced)
    {
      hide Plan, Dangles, Repoints, ClusterKey;
      var all := done + {k};
      if IsWebKey(desired, k) {
        assert k in all && host.endpoints[host.defaultCluster].container == Plan(list, desired, k).name;
        forall j <- all | IsWebKey(desired, j)
          ensures ClusterOf(desired[j]) in clusters ==> ClusterOf(desired[j]) in host.endpoints
          ensures ClusterOf(desired[j]) in host.endpoints ==>
            LeadsHome(list, desired, all, ClusterOf(desired[j]), host.endpoints)
        {
          var c := ClusterOf(desired[j]);
          if c in host.endpoints && !Moved(c, ClusterFor(desired[k]), host.defaultCluster) {
            assert j in done && c in table;
            var h :| h in done && Owns(desired, h, c) && table[c].container == Plan(list, desired, h).name;
            assert h in all;
          }
        }
      } else {
        forall j <- all, c | IsWebKey(desired, j) && LeadsHome(list, desired, done, c, table)
          ensures LeadsHome(list, desired, all, c, host.endpoints)
        {
          var h :| h in done && Owns(desired, h, c) && table[c].container == Plan(list, desired, h).name;
          assert h in all;
        }
      }
    }

    lemma LedOn(list: seq<Container>, desired: map<string, RuntimeService>, done: set<string>, k: string,
                clusters: set<string>, table: map<string, Endpoint>, referenced: set<string>, part: seq<Event>)
      requires Led(list, desired, done, clusters, table, referenced) && k in desired && specFor(desired[k]).Some?
      requires
        if specFor(desired[k]).Some? && desired[k].serviceKind == KIND_WEB then
          EndpointOutcome(part, Chosen(ExistingOf(list, k), desired[k], specFor(desired[k]).value).name,
                          ClusterFor(desired[k]),
                          host.defaultCluster, table, host.endpoints, host.Workload()) &&
          Follows(part, desired[k], clusters, referenced, table)
        else host.endpoints == table && host.referenced == referenced
      ensures Led(list, desired, done + {k}, clusters, host.endpoints, host.referenced)
    {
      hide Led, EndpointOutcome, Follows, Chosen, ExistingOf;
      LedStep(list, desired, done, k, clusters, table, referenced, part);
    }

    /** The entry for `c` leads to a running container of a desired web service that
        owns it. */
    ghost predicate Alive(c: string, desired: map<string, RuntimeService>)
      reads host
    {
      && c in host.endpoints && host.endpoints[c].container in host.Workload()
      && host.Workload()[host.endpoints[c].container].running
      && Owns(desired, KeyOf(host.Workload()[host.endpoints[c].container]), c)
    }

    /** With a web service about, the default cluster is alive; and the cluster of
        each web service, if it has an entry, leads to a container of a service with
        that cluster.  It has one if a route of the ingress refers to it. */
    ghost predicate AllAlive(desired: map<string, RuntimeService>, clusters: set<string>)
      reads host
    {
      forall k <- desired :: IsWebKey(desired, k) ==>
        && Alive(host.defaultCluster, desired)
        && (ClusterOf(desired[k]) in clusters ==> ClusterOf(desired[k]) in host.endpoints)
        && (ClusterOf(desired[k]) in host.endpoints ==> Alive(ClusterOf(desired[k]), desired))
    }

    lemma LedIsAlive(list: seq<Container>, desired: map<string, RuntimeService>, clusters: set<string>)
      requires Led(list, desired, desired.Keys, clusters, host.endpoints, host.referenced)
      requires Served(list, desired, desired.Keys, host.Workload())
      ensures AllAlive(desired, clusters)
    {
      hide Plan, KeyOf, ClusterOf, IsWebKey;
      forall c | LeadsHome(list, desired, desired.Keys, c, host.endpoints) ensures Alive(c, desired) {
        var k :| k in desired && Owns(desired, k, c) && host.endpoints[c].container == Plan(list, desired, k).name;
        assert ServedBy(k, Plan(list, desired, k), host.Workload());
        PlanRuns(list, desired, k);
      }
    }

    /** The loop over the desired services, in any order.  A failing service does
        not keep the others from being handled. */
    method HandleServices(desired: map<string, RuntimeService>, groups: map<string, seq<Container>>,
                          ingress: IngressView, ghost list: seq<Container>)
      returns (ok: bool, result: Result, ghost seg: seq<Event>)
      requires Valid() && Keyed(desired) && ListingOf(list, host.Workload(), host.envoyName)
      requires Grouped(groups, list)
      modifies host
      ensures Valid() && host.trace == old(host.trace) + seg
      ensures PassSoFar(ok, result, seg, list, desired, {}, old(host.Workload()), host.Workload())
      ensures ok ==> Led(list, desired, desired.Keys, ingress.clusters, host.endpoints, host.referenced)
      ensures ok && host.certFailures > old(host.certFailures) ==> ingress.tlsErrorNonFatal
    {
      hide KeyOf, Framed, Served, ZeroGap, Victims, Creations, Quiet, Settled, ExistingOf, Snapshot, ServiceOutcome,
           WebOutcome, Keyed, ServiceKeyOf, PassSoFar, Grouped, ListingOf, WellNamed, CutOver, IsWebKey, Led,
           EndpointOutcome, Follows;
      ok, result, seg := true, NOTHING, [];
      ghost var pre := host.Workload();
      PassStarts(list, pre, desired);
      LedStarts(list, desired, ingress.clusters);
      ListingFacts(list, pre, host.envoyName);
      var todo := desired.Keys;
      while todo != {}
        invariant Valid() && host.trace == old(host.trace) + seg
        invariant todo <= desired.Keys
        invariant PassSoFar(ok, result, seg, list, desired, todo, pre, host.Workload())
        invariant ok ==> Led(list, desired, desired.Keys - todo, ingress.clusters, host.endpoints, host.referenced)
        invariant ok && host.certFailures > old(host.certFailures) ==> ingress.tlsErrorNonFatal
      {
        var k :| k in todo;
        var existing := if k in groups then groups[k] else [];
        GroupAt(groups, list, k);
        ghost var now, t, table, referenced := host.Workload(), host.trace, host.endpoints, host.referenced;
        ReadyFor(ok, result, seg, list, desired, todo, k, pre);
        ghost var part;
        var one, oneOk;
        oneOk, one, part := ReconcileService(desired[k], existing, ingress);
        assert host.trace == old(host.trace) + (seg + part) by { assert t == old(host.trace) + seg; }
        PassStep(ok, result, oneOk, one, seg, part, list, desired, todo, k, pre, now, host.Workload());
        MoreDone(desired, todo, k);
        if ok && oneOk { LedOn(list, desired, desired.Keys - todo, k, ingress.clusters, table, referenced, part); }
        result := result.Add(one);
        seg := seg + part;
        ok := ok && oneOk;
        todo := todo - {k};
      }
      assert desired.Keys - {} == desired.Keys;
    }

    /** The next service can be handled from the listing. */
    lemma ReadyFor(ok: bool, result: Result, seg: seq<Event>, list: seq<Container>,
                   desired: map<string, RuntimeService>, todo: set<string>, k: string, pre: map<string, Container>)
      requires Valid() && PassSoFar(ok, result, seg, list, desired, todo, pre, host.Workload())
      requires ListingOf(list, pre, host.envoyName) && Keyed(desired) && k in todo && todo <= desired.Keys
      ensures Snapshot(ExistingOf(list, k), k, host.Workload()) && ServiceKeyOf(desired[k]) == k
    {
      hide KeyOf, PassSoFar, ListingOf, Keyed, Framed, Snapshot, ServiceKeyOf, ExistingOf, WellNamed;
      PassFramed(ok, result, seg, list, desired, todo, pre, host.Workload());
      WorkloadNamed();
      ListingStillHolds(list, pre, host.envoyName, host.Workload(), todo, k, desired);
      FiledUnder(desired, k);
    }

    /** What holds after part of the services have been handled. */
    ghost predicate PassSoFar(ok: bool, result: Result, seg: seq<Event>, list: seq<Container>,
                              desired: map<string, RuntimeService>, todo: set<string>, pre: map<string, Container>,
                              now: map<string, Container>) {
      && Framed(pre, now, todo, desired)
      && ZeroGap(seg, Victims(list, pre, desired)) && Accounted(Victims(list, pre, desired), pre, now, seg)
      && (ok ==>
            && Served(list, desired, desired.Keys - todo, now)
            && result.created + result.updated + result.untouched == |desired.Keys - todo|
            && |now| + result.removed == |pre| + Creations(seg))
      && (Settled(pre, desired) ==>
            Quiet(seg) && now == pre && (ok ==> result == Result(0, 0, 0, |desired.Keys - todo|)))
    }

    lemma PassFramed(ok: bool, result: Result, seg: seq<Event>, list: seq<Container>,
                     desired: map<string, RuntimeService>, todo: set<string>, pre: map<string, Container>,
                     now: map<string, Container>)
      requires PassSoFar(ok, result, seg, list, desired, todo, pre, now)
      ensures Framed(pre, now, todo, desired)
    {
    }

    lemma PassEnds(ok: bool, result: Result, seg: seq<Event>, list: seq<Container>,
                   desired: map<string, RuntimeService>, pre: map<string, Container>, now: map<string, Container>)
      requires PassSoFar(ok, result, seg, list, desired, {}, pre, now)
      ensures Framed(pre, now, {}, desired)
      ensures ZeroGap(seg, Victims(list, pre, desired))
      ensures ok ==>
        && Served(list, desired, desired.Keys, now)
        && result.created + result.updated + result.untouched == |desired|
        && |now| + result.removed == |pre| + Creations(seg)
      ensures Settled(pre, desired) ==> Quiet(seg) && now == pre && (ok ==> result == Result(0, 0, 0, |desired|))
    {
      hide KeyOf, Framed, Served, ZeroGap, Accounted, Victims, Creations, Quiet, Settled;
      assert desired.Keys - {} == desired.Keys;
    }

    lemma FiledUnder(desired: map<string, RuntimeService>, k: string)
      requires Keyed(desired) && k in desired
      ensures ServiceKeyOf(desired[k]) == k
    {
      hide ServiceKey;
    }

    lemma ListingFacts(list: seq<Container>, pre: map<string, Container>, envoyName: string)
      requires ListingOf(list, pre, envoyName)
      ensures DistinctNames(list) && forall c <- list :: c.name in pre ==> pre[c.name] == c
    {
    }

    lemma WorkloadNamed()
      requires Valid()
      ensures WellNamed(host.Workload())
    {
    }

    lemma PassStarts(list: seq<Container>, pre: map<string, Container>, desired: map<string, RuntimeService>)
      ensures PassSoFar(true, NOTHING, [], list, desired, desired.Keys, pre, pre)
    {
      hide KeyOf, Settled, ServedBy, CutOver, FirstMatch, ExistingOf;
      assert desired.Keys - desired.Keys == {};
    }

    lemma PassStep(ok: bool, result: Result, oneOk: bool, one: Result, seg: seq<Event>, part: seq<Event>,
                   list: seq<Container>, desired: map<string, RuntimeService>, todo: set<string>, k: string,
                   pre: map<string, Container>, now: map<string, Container>, next: map<string, Container>)
      requires DistinctNames(list) && forall c <- list :: c.name in pre ==> pre[c.name] == c
      requires k in todo && todo <= desired.Keys
      requires PassSoFar(ok, result, seg, list, desired, todo, pre, now)
      requires Snapshot(ExistingOf(list, k), k, now)
      requires ServiceKeyOf(desired[k]) == k
      requires specFor(desired[k]).None? ==> !oneOk && part == [] && next == now
      requires specFor(desired[k]).Some? ==>
        ServiceOutcome(oneOk, one, part, ExistingOf(list, k), desired[k], specFor(desired[k]).value, now, next)
      requires specFor(desired[k]).Some? && desired[k].serviceKind == KIND_WEB && part != [] ==>
        WebOutcome(oneOk, part, ExistingOf(list, k), desired[k], specFor(desired[k]).value, next)
      ensures PassSoFar(ok && oneOk, result.Add(one), seg + part, list, desired, todo - {k}, pre, next)
    {
      hide KeyOf, Framed, Served, ZeroGap, Accounted, Victims, Creations, Quiet, Settled,
           ExistingOf, Snapshot, OthersKept, ServiceTrace, DrainsAfterCutover, ServedBy, FirstMatch, ServiceOutcome,
           ServiceKeyOf;
      if specFor(desired[k]).None? {
        assert seg + part == seg;
        KeepsAll(k, now);
        FramedStep(pre, now, next, todo, k, desired);
        SettledNeedsSpec(pre, desired, k);
        MoreDone(desired, todo, k);
      } else {
        NothingDrained(part, ExistingOf(list, k), desired, k);
        PassStepServed(ok, result, oneOk, one, seg, part, list, desired, todo, k, pre, now, next);
      }
    }

    lemma MoreDone(desired: map<string, RuntimeService>, todo: set<string>, k: string)
      requires k in todo && todo <= desired.Keys
      ensures desired.Keys - (todo - {k}) == desired.Keys - todo + {k}
      ensures |desired.Keys - (todo - {k})| == |desired.Keys - todo| + 1
    {
      assert desired.Keys - (todo - {k}) == desired.Keys - todo + {k};
    }

    lemma PassStepServed(ok: bool, result: Result, oneOk: bool, one: Result, seg: seq<Event>, part: seq<Event>,
                         list: seq<Container>, desired: map<string, RuntimeService>, todo: set<string>, k: string,
                         pre: map<string, Container>, now: map<string, Container>, next: map<string, Container>)
      requires DistinctNames(list) && forall c <- list :: c.name in pre ==> pre[c.name] == c
      requires k in todo && todo <= desired.Keys && ServiceKeyOf(desired[k]) == k
      requires PassSoFar(ok, result, seg, list, desired, todo, pre, now)
      requires Snapshot(ExistingOf(list, k), k, now) && specFor(desired[k]).Some?
      requires ServiceOutcome(oneOk, one, part, ExistingOf(list, k), desired[k], specFor(desired[k]).value, now, next)
      requires IsWebKey(desired, k) ==>
        DrainsAfterCutover(part, Names(ExistingOf(list, k)),
                           SuccessorOf(ExistingOf(list, k), desired[k], specFor(desired[k]).value))
      ensures PassSoFar(ok && oneOk, result.Add(one), seg + part, list, desired, todo - {k}, pre, next)
    {
      hide KeyOf, Framed, Served, ZeroGap, Accounted, Victims, Creations, Quiet, Settled, ExistingOf, Snapshot,
           OthersKept, ServiceTrace, DrainsAfterCutover, ServedBy, FirstMatch, SuccessorOf, Names, Undisturbed,
           IsWebKey, Chosen;
      var spec := specFor(desired[k]).value;
      MoreDone(desired, todo, k);
      FramedStep(pre, now, next, todo, k, desired);
      TraceStep(seg, part, list, desired, k, pre, now, next);
      if ok && oneOk {
        CreationsAppend(seg, part);
        ServedStep(list, desired, desired.Keys - todo, k, now, next);
        ServedMore(list, desired, desired.Keys - todo, k, next);
      }
      if Settled(pre, desired) {
        QuietAppend(seg, part);
        SettledNeedsSpec(pre, desired, k);
        var c :| ServedBy(k, c, pre) && c.running && c.hash == spec.hash;
        SettledIsUndisturbed(ExistingOf(list, k), k, spec, c, now);
      }
    }

    lemma NothingDrained(part: seq<Event>, existing: seq<Container>, desired: map<string, RuntimeService>, k: string)
      requires k in desired
      ensures part == [] && IsWebKey(desired, k) ==>
        DrainsAfterCutover(part, Names(existing), SuccessorOf(existing, desired[k], specFor(desired[k]).value))
    {
    }

    lemma KeepsAll(k: string, now: map<string, Container>)
      ensures OthersKept(k, now, now)
    {
    }

    lemma SettledNeedsSpec(now: map<string, Container>, desired: map<string, RuntimeService>, k: string)
      requires k in desired
      ensures Settled(now, desired) ==>
                (specFor(desired[k]).Some? &&
                 exists c :: ServedBy(k, c, now) && c.running && c.hash == specFor(desired[k]).value.hash)
    {
      hide KeyOf, ServedBy;
    }

    lemma ServedMore(list: seq<Container>, desired: map<string, RuntimeService>, done: set<string>, k: string,
                     now: map<string, Container>)
      requires Served(list, desired, done, now) && k in desired && specFor(desired[k]).Some?
      requires ServedBy(k, Chosen(ExistingOf(list, k), desired[k], specFor(desired[k]).value), now)
      ensures Served(list, desired, done + {k}, now)
    {
      hide KeyOf, ServedBy, ExistingOf;
    }

    // ---- pruning ----

    /** The listed containers that the prune loop takes away. */
    function Prunable(list: seq<Container>, desired: map<string, RuntimeService>): seq<Container> {
      if list == [] then []
      else (if KeyOf(list[0]) in desired || Spared(list[0]) then [] else [list[0]]) + Prunable(list[1..], desired)
    }

    lemma {:induction false} PrunableMembers(list: seq<Container>, desired: map<string, RuntimeService>)
      requires DistinctNames(list)
      ensures DistinctNames(Prunable(list, desired))
      ensures forall c :: c in Prunable(list, desired) <==> c in list && KeyOf(c) !in desired && !Spared(c)
    {
      hide KeyOf, Spared;
      if list != [] {
        PrunableMembers(list[1..], desired);
        assert list == [list[0]] + list[1..];
        forall c | c in Prunable(list[1..], desired) ensures c.name != list[0].name {
          var i :| 0 <= i < |list[1..]| && list[1..][i] == c;
          assert list[i + 1] == c;
        }
      }
    }

    /** Spared are exactly containers without a name and Envoy's. */
    lemma SparedIs(c: Container)
      ensures Spared(c) <==> c.name == "" || RunsEnvoy(c, protectedNames)
    {
      hide Trim;
    }

    lemma ConvergedSweeps(list: seq<Container>, desired: map<string, RuntimeService>, pre: map<string, Container>,
                          now: map<string, Container>)
      requires Converged(list, desired, pre, now)
      ensures Swept(now, desired.Keys, protectedNames) && EnvoyStays(pre, now, desired.Keys, protectedNames)
    {
      hide KeyOf, Spared, RunsEnvoy, Served;
      forall c ensures Spared(c) <==> c.name == "" || RunsEnvoy(c, protectedNames) { SparedIs(c); }
    }

    lemma EnvoyIsSpared(c: Container)
      requires Valid() && c.name == host.envoyName && c.system == SYSTEM_ENVOY
      ensures Spared(c)
    {
      VisibleAscii('e');
      VisibleAscii('y');
      TrimmedEnds(SYSTEM_ENVOY);
    }

    /** What may be pruned is still listed as it was. */
    lemma PrunableListed(list: seq<Container>, desired: map<string, RuntimeService>, pre: map<string, Container>)
      requires Valid() && ListingOf(list, pre, host.envoyName) && Framed(pre, host.Workload(), {}, desired)
      ensures DistinctNames(Prunable(list, desired))
      ensures forall c <- Prunable(list, desired) ::
        c.name in host.Workload() && host.Workload()[c.name] == c && c.name in pre && pre[c.name] == c
    {
      hide KeyOf, Spared;
      PrunableMembers(list, desired);
      forall c | c in Prunable(list, desired) ensures c.name in pre && pre[c.name] == c {
        if c.name == host.envoyName { EnvoyIsSpared(c); }
      }
    }

    /** After a successful full pass: every desired service is served as planned,
        and beyond that only spared containers are left, unchanged. */
    ghost predicate Converged(list: seq<Container>, desired: map<string, RuntimeService>,
                              pre: map<string, Container>, now: map<string, Container>) {
      && Served(list, desired, desired.Keys, now)
      && (forall n <- now :: KeyOf(now[n]) in desired || (n in pre && pre[n] == now[n] && Spared(now[n])))
      && (forall n <- pre :: KeyOf(pre[n]) !in desired && Spared(pre[n]) ==> n in now && now[n] == pre[n])
    }

    lemma PruneConverges(list: seq<Container>, desired: map<string, RuntimeService>, pre: map<string, Container>,
                         middle: map<string, Container>, now: map<string, Container>)
      requires Served(list, desired, desired.Keys, middle) && Framed(pre, middle, {}, desired)
      requires ListingOf(list, pre, host.envoyName) && WellNamed(middle) && host.envoyName !in middle
      requires now == middle - Names(Prunable(list, desired))
      ensures Converged(list, desired, pre, now)
    {
      hide KeyOf, Spared, Plan, ServedBy, Prunable;
      PrunedUndesired(list, desired, pre, middle);
      PrunableMembers(list, desired);
      forall c | c in Prunable(list, desired) ensures c.name in Names(Prunable(list, desired)) {
        MemberName(Prunable(list, desired), c);
      }
      forall k | k in desired ensures ServedBy(k, Plan(list, desired, k), now) {
        ServedDespitePrune(k, Plan(list, desired, k), desired, middle, Names(Prunable(list, desired)));
      }
      forall n | n in now && KeyOf(now[n]) !in desired ensures n in pre && pre[n] == now[n] && Spared(now[n]) {
        assert middle[n] == now[n] && pre[n] == middle[n] && pre[n] in list;
      }
    }

    lemma ServedDespitePrune(k: string, c: Container, desired: map<string, RuntimeService>,
                             middle: map<string, Container>, gone: set<string>)
      requires ServedBy(k, c, middle) && k in desired
      requires forall n <- middle :: n in gone ==> KeyOf(middle[n]) !in desired
      ensures ServedBy(k, c, middle - gone)
    {
      hide KeyOf;
    }

    /** Pruning takes away only containers of services that are not desired. */
    lemma PrunedUndesired(list: seq<Container>, desired: map<string, RuntimeService>, pre: map<string, Container>,
                          middle: map<string, Container>)
      requires Framed(pre, middle, {}, desired) && ListingOf(list, pre, host.envoyName) && host.envoyName !in middle
      ensures forall n <- middle :: n in Names(Prunable(list, desired)) ==>
        KeyOf(middle[n]) !in desired && !Spared(middle[n])
    {
      hide KeyOf, Spared, Prunable;
      PrunableMembers(list, desired);
      forall n | n in middle && n in Names(Prunable(list, desired))
        ensures KeyOf(middle[n]) !in desired && !Spared(middle[n])
      {
        var c :| c in Prunable(list, desired) && c.name == n;
        assert pre[n] == c;
      }
    }

    /** The prune loop. */
    method Prune(list: seq<Container>, desired: map<string, RuntimeService>, ghost pre: map<string, Container>)
      returns (ok: bool, removed: nat, ghost seg: seq<Event>)
      requires Valid() && ListingOf(list, pre, host.envoyName) && Framed(pre, host.Workload(), {}, desired)
      modifies host`containers, host`trace
      ensures Valid() && host.trace == old(host.trace) + seg
      ensures PruneOutcome(ok, removed, seg, list, desired, pre, old(host.Workload()), host.Workload())
      ensures ok ==> Swept(host.Workload(), desired.Keys, protectedNames)
    {
      hide KeyOf, Spared, Prunable, Names, OnlyDrained, Framed, ListingOf, PruneOutcome, Swept;
      ghost var middle := host.Workload();
      var extras := Prunable(list, desired);
      PrunableListed(list, desired, pre);
      ListingFacts(list, pre, host.envoyName);
      PrunableMembers(list, desired);
      ok, removed, seg := DrainAll(extras);
      PruneDone(ok, removed, seg, list, desired, pre, middle, host.Workload());
      if ok { PruneSweeps(list, desired, pre, middle, host.Workload()); }
    }

    lemma PruneSweeps(list: seq<Container>, desired: map<string, RuntimeService>, pre: map<string, Container>,
                      middle: map<string, Container>, now: map<string, Container>)
      requires Framed(pre, middle, {}, desired) && ListingOf(list, pre, host.envoyName)
      requires now == middle - Names(Prunable(list, desired))
      ensures Swept(now, desired.Keys, protectedNames)
    {
      hide KeyOf, Spared, Prunable, RunsEnvoy;
      PrunableMembers(list, desired);
      forall n <- now
        ensures KeyOf(now[n]) in desired.Keys || now[n].name == "" || RunsEnvoy(now[n], protectedNames)
      {
        if KeyOf(now[n]) !in desired {
          var c := now[n];
          assert middle[n] == c && pre[n] == c && c in list;
          SparedIs(c);
          if c in Prunable(list, desired) { MemberName(Prunable(list, desired), c); }
        }
      }
    }

    /** What pruning does: it drains only containers of services that are not
        desired, and all of those it should if nothing fails. */
    ghost predicate PruneOutcome(ok: bool, removed: nat, seg: seq<Event>, list: seq<Container>,
                                 desired: map<string, RuntimeService>,
                                 pre: map<string, Container>, middle: map<string, Container>,
                                 now: map<string, Container>) {
      && (forall e <- seg :: Drains(e) && e.name in pre && KeyOf(pre[e.name]) !in desired)
      && (ok ==> |now| + removed == |middle| && now == middle - Names(Prunable(list, desired)))
      && (Prunable(list, desired) == [] ==> seg == [] && now == middle && removed == 0)
    }

    lemma PruneDone(ok: bool, removed: nat, seg: seq<Event>, list: seq<Container>, desired: map<string, RuntimeService>,
                    pre: map<string, Container>, middle: map<string, Container>, now: map<string, Container>)
      requires DistinctNames(Prunable(list, desired)) && forall c <- Prunable(list, desired) ::
        c in list && KeyOf(c) !in desired
      requires forall c <- Prunable(list, desired) :: c.name in pre && pre[c.name] == c
      requires forall c <- Prunable(list, desired) :: c.name in middle && middle[c.name] == c
      requires forall e <- seg :: Drains(e) && e.name in Names(Prunable(list, desired))
      requires OnlyDrained(Names(Prunable(list, desired)), middle, now)
      requires removed <= |Prunable(list, desired)|
      requires ok ==> now == middle - Names(Prunable(list, desired)) && removed == |Prunable(list, desired)|
      ensures PruneOutcome(ok, removed, seg, list, desired, pre, middle, now)
    {
      hide KeyOf, Prunable, Names, OnlyDrained;
      var extras := Prunable(list, desired);
      forall e <- seg ensures e.name in pre && KeyOf(pre[e.name]) !in desired {
        NamedMember(extras, e.name);
      }
      forall i | 0 <= i < |extras| ensures extras[i].name in middle { assert extras[i] in extras; }
      DrainedSize(extras, |extras|, middle);
      assert extras[..|extras|] == extras;
      if extras == [] {
        NoNames(extras);
        NoEvents(seg, {});
        OnlyNothing(middle, now);
      }
    }

    lemma NamedMember(list: seq<Container>, n: string)
      requires n in Names(list)
      ensures exists c <- list :: c.name == n
    {
    }

    lemma NoEvents(events: seq<Event>, names: set<string>)
      requires names == {} && forall e <- events :: Drains(e) && e.name in names
      ensures events == []
    {
      HasMember(events);
    }

    lemma OnlyNothing(before: map<string, Container>, after: map<string, Container>)
      requires OnlyDrained({}, before, after)
      ensures after == before
    {
    }

    lemma NothingPrunable(list: seq<Container>, desired: map<string, RuntimeService>, pre: map<string, Container>)
      requires Valid() && Settled(pre, desired) && ListingOf(list, pre, host.envoyName)
      ensures Prunable(list, desired) == []
    {
      hide KeyOf, Spared, Prunable;
      PrunableMembers(list, desired);
      forall c | c in list ensures c !in Prunable(list, desired) {
        if c.name == host.envoyName { EnvoyIsSpared(c); }
      }
      HasMember(Prunable(list, desired));
    }

    /** A listing of the host, seen from the workload. */
    lemma ListingTaken(list: seq<Container>)
      requires Valid() && Lists(list, host.containers)
      ensures ListingOf(list, host.Workload(), host.envoyName)
    {
    }

    // ---- Reconcile ----

    /** What a pass over `services` promises, whether it succeeds or not. */
    ghost predicate PassOutcome(ok: bool, prune: bool, result: Result, list: seq<Container>, seg: seq<Event>,
                                services: seq<RuntimeService>, pre: map<string, Container>,
                                now: map<string, Container>) {
      var desired := DesiredMap(services);
      && ZeroGap(seg, Victims(list, pre, desired))
      && (ok && prune ==> Converged(list, desired, pre, now))
      && (ok && prune ==>
            && Swept(now, desired.Keys, protectedNames)
            && EnvoyStays(pre, now, desired.Keys, protectedNames))
      && (ok && !prune ==> Served(list, desired, desired.Keys, now))
      && (!prune ==> Framed(pre, now, {}, desired))
      && (ok ==>
            && result.created + result.updated + result.untouched == |services|
            && |now| + result.removed == |pre| + Creations(seg))
      && (Settled(pre, desired) ==> Quiet(seg) && now == pre && (ok ==> result == Result(0, 0, 0, |services|)))
    }

    lemma EarlyExit(prune: bool, services: seq<RuntimeService>, pre: map<string, Container>)
      ensures PassOutcome(false, prune, NOTHING, [], [], services, pre, pre)
    {
      hide KeyOf, Victims, Settled, DesiredMap, Converged, Served, Creations, Swept, EnvoyStays;
    }

    lemma AfterServices(ok: bool, prune: bool, result: Result, list: seq<Container>, seg: seq<Event>,
                        services: seq<RuntimeService>, pre: map<string, Container>, now: map<string, Container>)
      requires NamesPresent(services) && KeysDistinct(services)
      requires PassSoFar(ok, result, seg, list, DesiredMap(services), {}, pre, now)
      ensures !ok || !prune ==> PassOutcome(ok, prune, result, list, seg, services, pre, now)
    {
      hide KeyOf, Victims, Settled, DesiredMap, Converged, Served, Creations, ZeroGap, Framed, PassSoFar, Quiet,
           NamesPresent, KeysDistinct, Swept, EnvoyStays;
      DesiredMapSize(services);
      PassEnds(ok, result, seg, list, DesiredMap(services), pre, now);
    }

    lemma AfterPrune(ok: bool, result: Result, removed: nat, list: seq<Container>, seg: seq<Event>, pruned: seq<Event>,
                     services: seq<RuntimeService>, pre: map<string, Container>, middle: map<string, Container>,
                     now: map<string, Container>)
      requires Valid() && NamesPresent(services) && KeysDistinct(services) && ListingOf(list, pre, host.envoyName)
      requires PassSoFar(true, result, seg, list, DesiredMap(services), {}, pre, middle)
      requires WellNamed(middle) && host.envoyName !in middle
      requires PruneOutcome(ok, removed, pruned, list, DesiredMap(services), pre, middle, now)
      ensures PassOutcome(ok, true, result.(removed := result.removed + removed), list, seg + pruned, services, pre,
                          now)
    {
      hide KeyOf, Victims, Settled, DesiredMap, Converged, Served,
           Creations, ZeroGap, Framed, PassSoFar, Quiet, NamesPresent, KeysDistinct, Prunable, ListingOf, WellNamed,
           Names, Swept, EnvoyStays;
      var desired := DesiredMap(services);
      DesiredMapSize(services);
      PassEnds(true, result, seg, list, desired, pre, middle);
      PruneTrace(seg, pruned, list, pre, desired);
      if ok {
        PruneConverges(list, desired, pre, middle, now);
        ConvergedSweeps(list, desired, pre, now);
      }
      if Settled(pre, desired) {
        NothingPrunable(list, desired, pre);
        assert seg + [] == seg;
      }
    }

    /** `reconcile`: list, handle every selected service, then prune.  The
        preparation calls (networks, Envoy's attachments) may fail but leave the
        containers alone. */
    method ReconcileScope(services: seq<RuntimeService>, prune: bool, ingress: IngressView)
      returns (ok: bool, result: Result, ghost list: seq<Container>, ghost seg: seq<Event>)
      requires Valid() && NamesPresent(services) && KeysDistinct(services)
      modifies host
      ensures Valid() && host.trace == old(host.trace) + seg
      ensures ok || seg != [] ==> Lists(list, old(host.containers))
      ensures PassOutcome(ok, prune, result, list, seg, services, old(host.Workload()), host.Workload())
      ensures ok ==> Led(list, DesiredMap(services), DesiredMap(services).Keys, ingress.clusters, host.endpoints,
                         host.referenced)
      ensures ok && host.certFailures > old(host.certFailures) ==> ingress.tlsErrorNonFatal
    {
      hide KeyOf, Framed, PassSoFar, PassOutcome, DesiredMap,
           Keyed, Grouped, ListingOf, Lists, WellNamed, Names, Prunable, KeysDistinct, NamesPresent, Spared,
           PruneOutcome, Led;
      result, list, seg := NOTHING, [], [];
      ghost var pre := host.Workload();
      EarlyExit(prune, services, pre);
      DesiredMapSpec(services);
      ok := host.Attempt();
      if !ok { return; }
      var desiredByService := IndexDesired(services);
      var listed;
      ok, listed := host.ListManaged();
      if !ok { return; }
      list := listed;
      ListingTaken(list);
      var groups := GroupByService(listed);
      ok, result, seg := HandleServices(desiredByService, groups, ingress, list);
      AfterServices(ok, prune, result, list, seg, services, pre, host.Workload());
      if !ok || !prune { return; }
      ghost var middle, events, handled := host.Workload(), seg, result;
      PassFramed(ok, result, seg, list, desiredByService, {}, pre, middle);
      WorkloadNamed();
      ghost var pruned, t := [], host.trace;
      var removed;
      ok, removed, pruned := Prune(listed, desiredByService, pre);
      assert host.trace == old(host.trace) + (events + pruned) by { assert t == old(host.trace) + events; }
      result := result.(removed := result.removed + removed);
      seg := seg + pruned;
      AfterPrune(ok, handled, removed, list, events, pruned, services, pre, middle, host.Workload());
    }

    /** Pruning drains none of the containers that await a cutover. */
    lemma PruneTrace(events: seq<Event>, pruned: seq<Event>, list: seq<Container>, pre: map<string, Container>,
                     desired: map<string, RuntimeService>)
      requires ZeroGap(events, Victims(list, pre, desired))
      requires forall e <- pruned :: Drains(e) && e.name in pre && KeyOf(pre[e.name]) !in desired
      ensures ZeroGap(events + pruned, Victims(list, pre, desired))
      ensures Creations(events + pruned) == Creations(events)
    {
      hide KeyOf, CutOver, Creations;
      forall i | 0 <= i < |pruned| ensures Drains(pruned[i]) && pruned[i].name !in Victims(list, pre, desired) {
        assert pruned[i] in pruned;
      }
      ZeroGapAppend(events, pruned, Victims(list, pre, desired));
      CreationsAppend(events, pruned);
      NoCreations(pruned);
    }

    method IndexDesired(services: seq<RuntimeService>) returns (desired: map<string, RuntimeService>)
      ensures desired == DesiredMap(services)
    {
      hide ServiceKeyOf;
      desired := map[];
      for i := 0 to |services|
        invariant desired == DesiredMap(services[..i])
      {
        assert services[..i + 1][..i] == services[..i];
        desired := desired[ServiceKeyOf(services[i]) := services[i]];
      }
      assert services[..|services|] == services;
    }

    // ---- what a pass means for the node ----

    /** The containers left by a successful pass depend only on the listing it
        started from: not on the order in which services were handled, and not
        on anything else. */
    lemma ConvergedUnique(list: seq<Container>, desired: map<string, RuntimeService>, pre: map<string, Container>,
                          a: map<string, Container>, b: map<string, Container>)
      requires Converged(list, desired, pre, a) && Converged(list, desired, pre, b)
      ensures a == b
    {
      hide KeyOf, Spared, Plan, Chosen;
      ConvergedContained(list, desired, pre, a, b);
      ConvergedContained(list, desired, pre, b, a);
      assert a.Keys == b.Keys;
    }

    lemma ConvergedContained(list: seq<Container>, desired: map<string, RuntimeService>, pre: map<string, Container>,
                             a: map<string, Container>, b: map<string, Container>)
      requires Converged(list, desired, pre, a) && Converged(list, desired, pre, b)
      ensures forall n <- a :: n in b && b[n] == a[n]
    {
      hide KeyOf, Spared, Plan;
      forall n | n in a ensures n in b && b[n] == a[n] {
        var k := KeyOf(a[n]);
        if k in desired {
          assert ServedBy(k, Plan(list, desired, k), a) && ServedBy(k, Plan(list, desired, k), b);
        }
      }
    }

    lemma PlanRuns(list: seq<Container>, desired: map<string, RuntimeService>, k: string)
      requires k in desired && specFor(desired[k]).Some?
      ensures Plan(list, desired, k).running && Plan(list, desired, k).hash == specFor(desired[k]).value.hash
    {
      hide ExistingOf;
    }

    lemma ConvergedIsServed(list: seq<Container>, desired: map<string, RuntimeService>, pre: map<string, Container>,
                            now: map<string, Container>)
      requires Converged(list, desired, pre, now)
      ensures Served(list, desired, desired.Keys, now)
    {
      hide KeyOf, Spared, Plan, ServedBy;
    }

    /** A successful pass leaves every desired service with exactly one container,
        running and with the expected hash, and nothing else unprotected. */
    lemma ConvergedIsSettled(list: seq<Container>, desired: map<string, RuntimeService>, pre: map<string, Container>,
                             now: map<string, Container>)
      requires Converged(list, desired, pre, now)
      ensures Settled(now, desired)
    {
      hide KeyOf, Spared, Plan;
      forall k | k in desired
        ensures specFor(desired[k]).Some? &&
                exists c :: ServedBy(k, c, now) && c.running && c.hash == specFor(desired[k]).value.hash
      {
        PlanRuns(list, desired, k);
        assert ServedBy(k, Plan(list, desired, k), now);
      }
    }

    /** `Reconcile` of a validated desired state. */
    method Reconcile(state: DesiredState)
      returns (ok: bool, result: Result, ghost list: seq<Container>, ghost seg: seq<Event>)
      requires Valid() && EnvironmentsOk(state.environments, sanitize)
      modifies host
      ensures Valid() && host.trace == old(host.trace) + seg
      ensures ok || seg != [] ==> Lists(list, old(host.containers))
      // end state, and its independence of the order of the work
      ensures ok ==> Converged(list, DesiredMap(AllServices(state)), old(host.Workload()), host.Workload())
      ensures ok ==> Settled(host.Workload(), DesiredMap(AllServices(state)))
      // nothing is left of other services, and Envoy is
      ensures ok ==>
        var keys := set rs <- AllServices(state) :: ServiceKey(rs.environmentName, rs.serviceName);
        && Swept(host.Workload(), keys, protectedNames)
        && EnvoyStays(old(host.Workload()), host.Workload(), keys, protectedNames)
      // one running container with the expected hash per service
      ensures ok ==> forall rs <- AllServices(state) :: RunsOne(rs, host.Workload())
      // without a certificate it only goes on for automatic TLS of a public ingress
      ensures ok && host.certFailures > old(host.certFailures) ==> AutomaticTLS(state.ingress)
      // safety, on every path, failing or not
      ensures ZeroGap(seg, Victims(list, old(host.Workload()), DesiredMap(AllServices(state))))
      // where the endpoints lead
      ensures ok ==> AllAlive(DesiredMap(AllServices(state)), ClustersOf(state.ingress))
      // the counters
      ensures ok ==> result.created + result.updated + result.untouched == |AllServices(state)|
      ensures ok ==> |host.Workload()| + result.removed == |old(host.Workload())| + Creations(seg)
      // quiescence
      ensures Settled(old(host.Workload()), DesiredMap(AllServices(state))) ==>
        Quiet(seg) && host.Workload() == old(host.Workload()) &&
        (ok ==> result == Result(0, 0, 0, |AllServices(state)|))
    {
      hide KeyOf, Converged, Settled, DesiredMap, Victims, ZeroGap,
           Quiet, Creations, AllServices, EnvironmentsOk, KeysDistinct, NamesPresent, Lists, Served, Framed, Led,
           AllAlive, Swept, EnvoyStays;
      var services := RuntimeServices(state);
      DesiredKeys(services);
      ValidatedServices(state, sanitize);
      ok, result, list, seg := ReconcileScope(services, true, ViewOf(state.ingress));
      if ok {
        ConvergedIsSettled(list, DesiredMap(services), old(host.Workload()), host.Workload());
        ConvergedIsServed(list, DesiredMap(services), old(host.Workload()), host.Workload());
        LedIsAlive(list, DesiredMap(services), ClustersOf(state.ingress));
        ServedRuns(list, services, host.Workload());
        AutomaticTLSIs(state.ingress);
      }
    }

    /** `ReconcileSupportServices`: only the accessories of one environment, and
        no pruning. */
    method ReconcileSupportServices(state: DesiredState, environmentName: string)
      returns (ok: bool, result: Result, ghost list: seq<Container>, ghost seg: seq<Event>)
      requires Valid() && EnvironmentsOk(state.environments, sanitize)
      modifies host
      ensures Valid() && host.trace == old(host.trace) + seg
      ensures ok ==>
        var desired := DesiredMap(AccessoriesOf(AllServices(state), Trim(environmentName)));
        Lists(list, old(host.containers)) && Served(list, desired, desired.Keys, host.Workload())
      ensures Framed(old(host.Workload()), host.Workload(), {},
                     DesiredMap(AccessoriesOf(AllServices(state), Trim(environmentName))))
      ensures ok ==>
        result.created + result.updated + result.untouched ==
        |AccessoriesOf(AllServices(state), Trim(environmentName))|
      // one running container per accessory, and any other container is as it was
      ensures ok ==> forall rs <- AllServices(state) :: IsAccessory(rs, environmentName) ==>
        RunsOne(rs, host.Workload())
      ensures OthersStay(AllServices(state), environmentName, old(host.Workload()), host.Workload())
    {
      hide KeyOf, Converged, Settled, DesiredMap, Victims, ZeroGap,
           Quiet, Creations, AllServices, EnvironmentsOk, KeysDistinct, NamesPresent, Lists, Served, Framed,
           AccessoriesOf, Led;
      var services := RuntimeServices(state);
      ValidatedServices(state, sanitize);
      AccessoriesSpec(services, Trim(environmentName));
      var accessories := AccessoriesOf(services, Trim(environmentName));
      ok, result, list, seg := ReconcileScope(accessories, false, ViewOf(state.ingress));
      if ok { ServedRuns(list, accessories, host.Workload()); }
      FramedStays(services, environmentName, old(host.Workload()), host.Workload());
    }

    ghost predicate IsAccessory(rs: RuntimeService, environmentName: string) {
      rs.environmentName == Trim(environmentName) && rs.serviceKind == "accessory"
    }

    /** The container is not that of an accessory of this environment. */
    ghost predicate Foreign(c: Container, services: seq<RuntimeService>, environmentName: string) {
      forall rs <- services :: IsAccessory(rs, environmentName) ==>
        KeyOf(c) != ServiceKey(rs.environmentName, rs.serviceName)
    }

    ghost predicate OthersStay(services: seq<RuntimeService>, environmentName: string, pre: map<string, Container>,
                               now: map<string, Container>) {
      && (forall n <- pre :: Foreign(pre[n], services, environmentName) ==> n in now && now[n] == pre[n])
      && (forall n <- now :: Foreign(now[n], services, environmentName) ==> n in pre && pre[n] == now[n])
    }

    lemma FramedStays(services: seq<RuntimeService>, environmentName: string, pre: map<string, Container>,
                      now: map<string, Container>)
      requires NamesPresent(services) && KeysDistinct(services)
      requires Framed(pre, now, {}, DesiredMap(AccessoriesOf(services, Trim(environmentName))))
      ensures OthersStay(services, environmentName, pre, now)
    {
      hide ServiceKey, KeyOf, Trim, NamesPresent, KeysDistinct, DesiredMap, AccessoriesOf;
      var accessories := AccessoriesOf(services, Trim(environmentName));
      AccessoriesSpec(services, Trim(environmentName));
      DesiredMapSpec(accessories);
      var desired := DesiredMap(accessories);
      forall k | k in desired
        ensures exists rs <- services :: IsAccessory(rs, environmentName) &&
                                         ServiceKey(rs.environmentName, rs.serviceName) == k
      {
        assert ServiceKeyOf(desired[k]) == k && IsAccessory(desired[k], environmentName);
      }
    }

    /** Two passes in a row: once the first has succeeded, the second creates,
        starts, stops and removes nothing, whatever fails during it, and if it
        succeeds it counts every service as unchanged. */
    method ReconcileAgain(state: DesiredState)
      returns (first: bool, second: bool, result: Result, ghost seg: seq<Event>)
      requires Valid() && EnvironmentsOk(state.environments, sanitize)
      modifies host
      ensures Valid()
      ensures first ==> Quiet(seg) && (second ==> result == Result(0, 0, 0, |AllServices(state)|))
    {
      hide *;
      ghost var list;
      first, result, list, seg := Reconcile(state);
      second := false;
      if first {
        second, result, list, seg := Reconcile(state);
      }
    }
  }
}
