/** The node the reconciler drives: the container engine and the Envoy endpoint
    table, as one object whose operations may each fail.  A failed call may or
    may not have taken effect, but it never touches another container.  The
    ghost trace records what was asked for, in order. */
module Hosts {
  import opened ScopedKeys
  import opened EndpointTables

  const SYSTEM_ENVOY := "envoy"
  const DEFAULT_ENVOY_NAME := "devopsellence-envoy"

  datatype Container = Container(
    name: string, environment: string, service: string, serviceKind: string, hash: string, system: string,
    running: bool)

  /** `containerServiceKey`. */
  function KeyOf(c: Container): string {
    ServiceKey(c.environment, c.service)
  }

  datatype Event =
    | Create(name: string, ok: bool)
    | Start(name: string, ok: bool)
    | Stop(name: string, ok: bool)
    | Remove(name: string, ok: bool, gone: bool)   // `gone`: the container is not there afterwards
    | Inspect(name: string, address: string)
    | Probe(address: string, ok: bool)
    | Point(cluster: string, address: string, ok: bool)
    | RouteCheck(ok: bool)

  /** The event takes container `e.name` out of service. */
  predicate Drains(e: Event) {
    e.Stop? || e.Remove?
  }

  /** Nothing is created, started, stopped or removed. */
  ghost predicate Quiet(events: seq<Event>) {
    forall e <- events :: !e.Create? && !e.Start? && !e.Stop? && !e.Remove?
  }

  function Names(containers: seq<Container>): set<string> {
    set c <- containers :: c.name
  }

  ghost predicate DistinctNames(list: seq<Container>) {
    forall i, j :: 0 <= i < j < |list| ==> list[i].name != list[j].name
  }

  /** `list` enumerates the containers of `m`, in some order. */
  ghost predicate Lists(list: seq<Container>, m: map<string, Container>) {
    && DistinctNames(list)
    && (forall c <- list :: c.name in m && m[c.name] == c)
    && (forall n <- m :: m[n] in list)
  }

  /** An endpoint, and the container that the engine last reported its address
      for. */
  datatype Endpoint = Endpoint(address: string, container: string)

  // ---- what the calls may do ----

  ghost predicate Creates(before: map<string, Container>, c: Container, ok: bool, after: map<string, Container>) {
    if ok then c.name !in before && after == before[c.name := c]
    else after == before || (c.name !in before && after == before[c.name := c.(running := false)])
  }

  ghost predicate Stops(before: map<string, Container>, name: string, ok: bool, after: map<string, Container>) {
    if name in before
    then name in after && after == before[name := before[name].(running := after[name].running)]
    else after == before
  }

  ghost predicate Removes(before: map<string, Container>, name: string, ok: bool, gone: bool,
                          after: map<string, Container>) {
    && (gone <==> name !in after)
    && (ok ==> gone && name in before)
    && (after == before || after == before - {name})
  }

  /** An update of the endpoint table.  When it fails, the snapshot that goes with
      it may or may not have been made. */
  ghost predicate Points(before: map<string, Endpoint>, cluster: string, defaultCluster: string,
                         referenced: set<string>, endpoint: Endpoint, ok: bool, after: map<string, Endpoint>) {
    var updated := Updated(before, cluster, defaultCluster, endpoint);
    after == Pruned(updated, defaultCluster, referenced) || (!ok && after == updated)
  }

  class Host {
    /** The name Envoy's own container runs under. */
    const envoyName: string
    /** The cluster that follows every update. */
    const defaultCluster: string
    var containers: map<string, Container>
    /** The endpoint Envoy currently routes each cluster to. */
    var endpoints: map<string, Endpoint>
    /** The clusters that the last ingress references. */
    var referenced: set<string>
    /** The container that each address was last reported for. */
    var owners: map<string, string>
    ghost var trace: seq<Event>
    /** How often a certificate could not be had. */
    ghost var certFailures: nat

    constructor (envoyName: string, defaultCluster: string)
      ensures Valid() && this.envoyName == envoyName && this.defaultCluster == defaultCluster
      ensures containers == map[] && endpoints == map[] && referenced == {} && owners == map[] && trace == [] &&
        certFailures == 0
    {
      this.envoyName, this.defaultCluster := envoyName, defaultCluster;
      containers, endpoints, referenced, owners, trace, certFailures := map[], map[], {}, map[], [], 0;
    }

    /** Containers are filed under their name, and whatever runs under Envoy's
        name is Envoy. */
    ghost predicate Valid()
      reads this
    {
      && (forall n <- containers :: containers[n].name == n)
      && (envoyName in containers ==>
            containers[envoyName].service == "" && containers[envoyName].system == SYSTEM_ENVOY)
    }

    /** Everything but Envoy's own container. */
    ghost function Workload(): map<string, Container>
      reads this
    {
      containers - {envoyName}
    }

    method ListManaged() returns (ok: bool, list: seq<Container>)
      requires Valid()
      ensures ok ==> Lists(list, containers)
    {
      list := [];
      var todo := containers.Keys;
      while todo != {}
        invariant todo <= containers.Keys
        invariant DistinctNames(list)
        invariant forall c <- list :: c.name in containers && c.name !in todo && containers[c.name] == c
        invariant forall n <- containers :: n !in todo ==> containers[n] in list
      {
        var n :| n in todo;
        list := list + [containers[n]];
        todo := todo - {n};
      }
      ok := *;
    }

    method CreateAndStart(c: Container) returns (ok: bool)
      requires Valid() && c.name != envoyName && c.running
      modifies this`containers, this`trace
      ensures Valid() && trace == old(trace) + [Create(c.name, ok)]
      ensures Creates(old(Workload()), c, ok, Workload())
    {
      ok := *;
      var partial: bool := *;
      if c.name in containers {
        ok := false;
      } else if ok {
        containers := containers[c.name := c];
      } else if partial {
        containers := containers[c.name := c.(running := false)];
      }
      trace := trace + [Create(c.name, ok)];
    }

    method Start(name: string) returns (ok: bool)
      requires Valid() && name in containers && name != envoyName
      modifies this`containers, this`trace
      ensures Valid() && trace == old(trace) + [Event.Start(name, ok)]
      ensures name in containers && (ok ==> containers[name].running)
      ensures containers == old(containers)[name := old(containers)[name].(running := containers[name].running)]
    {
      ok := *;
      var running: bool := *;
      containers := containers[name := containers[name].(running := ok || running)];
      trace := trace + [Event.Start(name, ok)];
    }

    method Stop(name: string) returns (ok: bool)
      requires Valid()
      modifies this`containers, this`trace
      ensures Valid() && trace == old(trace) + [Event.Stop(name, ok)]
      ensures Stops(old(containers), name, ok, containers)
    {
      ok := *;
      var running: bool := *;
      if name in containers {
        containers := containers[name := containers[name].(running := !ok && running)];
      }
      trace := trace + [Event.Stop(name, ok)];
    }

    method Remove(name: string) returns (ok: bool, ghost gone: bool)
      requires Valid()
      modifies this`containers, this`trace
      ensures Valid() && trace == old(trace) + [Event.Remove(name, ok, gone)]
      ensures Removes(old(containers), name, ok, gone, containers)
    {
      ok := *;
      var done: bool := *;
      ok := ok && name in containers;
      if ok || done {
        containers := containers - {name};
      }
      gone := name !in containers;
      trace := trace + [Event.Remove(name, ok, gone)];
    }

    /** The running flag is the engine's; the network address is whatever the
        engine says at that moment ("" when there is none). */
    method Inspect(name: string) returns (ok: bool, running: bool, address: string)
      requires Valid()
      modifies this`trace, this`owners
      ensures trace == old(trace) + [Event.Inspect(name, address)]
      ensures ok ==> name in containers && running == containers[name].running
      ensures owners == if ok then old(owners)[address := name] else old(owners)
    {
      ok, address := *, *;
      ok := ok && name in containers;
      running := ok && containers[name].running;
      if ok { owners := owners[address := name]; }
      trace := trace + [Event.Inspect(name, address)];
    }

    method ProbeHTTP(address: string) returns (ok: bool)
      modifies this`trace
      ensures trace == old(trace) + [Probe(address, ok)]
    {
      ok := *;
      trace := trace + [Probe(address, ok)];
    }

    method EnsureCertificate() returns (ok: bool)
      modifies this`certFailures
      ensures certFailures == old(certFailures) + if ok then 0 else 1
    {
      ok := *;
      if !ok { certFailures := certFailures + 1; }
    }

    /** Networks, images and waiting: calls whose only effect the
        reconciler sees is whether they succeeded. */
    method Attempt() returns (ok: bool)
    {
      ok := *;
    }

    // ---- Envoy: may replace its own container, and moves endpoints ----

    function OwnerOf(address: string): string
      reads this
    {
      if address in owners then owners[address] else ""
    }

    /** Every snapshot prunes the table; the ingress that `clusters` belong to only
        counts from the next snapshot on. */
    method EnsureEnvoy(clusters: set<string>) returns (ok: bool)
      requires Valid()
      modifies this`containers, this`endpoints, this`referenced
      ensures Valid() && Workload() == old(Workload())
      ensures endpoints == Pruned(old(endpoints), defaultCluster, old(referenced)) ||
        (!ok && endpoints == old(endpoints))
      ensures referenced == if ok then clusters else old(referenced)
    {
      ok := *;
      var snapshot: bool, replaced: bool := *, *;
      if ok || snapshot {
        endpoints := Pruned(endpoints, defaultCluster, referenced);
      }
      if replaced {
        containers := containers[envoyName := Container(envoyName, "", "", "", "", SYSTEM_ENVOY, ok)];
      }
      if ok { referenced := clusters; }
    }

    method UpdateClusterEDS(cluster: string, address: string) returns (ok: bool)
      requires Valid()
      modifies this`endpoints, this`trace
      ensures trace == old(trace) + [Point(cluster, address, ok)]
      ensures Points(old(endpoints), cluster, defaultCluster, referenced, Endpoint(address, OwnerOf(address)), ok,
                     endpoints)
    {
      ok := *;
      var snapshot: bool := *;
      endpoints := Updated(endpoints, cluster, defaultCluster, Endpoint(address, OwnerOf(address)));
      if ok || snapshot {
        endpoints := Pruned(endpoints, defaultCluster, referenced);
      }
      trace := trace + [Point(cluster, address, ok)];
    }

    /** May restart Envoy once before it gives up, and then makes a snapshot. */
    method WaitForRoute() returns (ok: bool)
      requires Valid()
      modifies this`containers, this`trace, this`endpoints
      ensures Valid() && Workload() == old(Workload()) && trace == old(trace) + [RouteCheck(ok)]
      ensures endpoints == old(endpoints) || endpoints == Pruned(old(endpoints), defaultCluster, referenced)
    {
      ok := *;
      var restarted: bool, snapshot: bool := *, *;
      if restarted {
        containers := containers - {envoyName};
        if ok {
          containers := containers[envoyName := Container(envoyName, "", "", "", "", SYSTEM_ENVOY, true)];
        }
        if snapshot { endpoints := Pruned(endpoints, defaultCluster, referenced); }
      }
      trace := trace + [RouteCheck(ok)];
    }
  }
}
