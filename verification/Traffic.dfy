/** From a request to the container that answers it: the routes that the tables are
    made of and the endpoints that the reconciler sets speak of the same clusters. */
module Traffic {
  import opened Text
  import opened DesiredStates
  import opened Routing
  import opened EndpointTables
  import Hosts
  import Reconcilers

  /** Route `r` asks for requests to `host` whose path begins with its prefix. */
  predicate Takes(r: Route, host: string, path: string) {
    && r.match_.Some? && Trim(r.match_.value.hostname) == host
    && Spelled(r) <= path
  }

  /** The prefix as it is matched: no prefix is that of every path. */
  function Spelled(r: Route): string
    requires r.match_.Some?
  {
    if Trim(r.match_.value.pathPrefix) == "" then "/" else Trim(r.match_.value.pathPrefix)
  }

  /** Route `i` takes the request, and no route with a longer prefix does, nor an
      earlier one with the same. */
  ghost predicate TakesFirst(routes: seq<Option<Route>>, host: string, path: string, i: nat) {
    && i < |routes| && routes[i].Some? && Takes(routes[i].value, host, path)
    && forall j: nat :: j < |routes| && routes[j].Some? && Takes(routes[j].value, host, path) ==>
         |Spelled(routes[j].value)| < |Spelled(routes[i].value)| ||
         (Spelled(routes[j].value) == Spelled(routes[i].value) && i <= j)
  }

  /** What the tables go by, on routes that say what they match. */
  lemma AppliesIs(routes: seq<Option<Route>>, host: string, path: string, i: nat)
    requires i < |routes| && (routes[i].Some? ==> routes[i].value.match_.Some?) && host != ""
    ensures Applies(routes, host, path, i) <==> routes[i].Some? && Takes(routes[i].value, host, path)
    ensures routes[i].Some? ==> PrefixOf(routes[i]) == Spelled(routes[i].value)
  {
    hide Trim;
  }

  /** Where a request goes.  On routes that say what they match, a request that is no
      HTTP-01 challenge goes to the cluster of the target of the route that takes it
      first, and nowhere if none of them takes it. */
  lemma RequestGoes(domains: seq<string>, defaultCluster: string, routes: seq<Option<Route>>,
                    sanitize: string -> string, challenge: bool, host: string, path: string)
    requires forall k :: 0 <= k < |routes| ==> routes[k].Some? && routes[k].value.match_.Some?
    requires host != "" && exists k :: 0 <= k < |routes| && Trim(routes[k].value.match_.value.hostname) == host
    requires !(challenge && HasPrefix(path, "/.well-known/acme-challenge/"))
    ensures
      var action := Lookup(VirtualHostsOf(domains, defaultCluster, routes, sanitize, challenge), host, path);
      if exists i: nat :: i < |routes| && Takes(routes[i].value, host, path) then
        exists i: nat :: TakesFirst(routes, host, path, i) && action == Some(ToCluster(ClusterOf(routes[i], sanitize)))
      else action == None
  {
    hide Trim, ClusterOf, VirtualHostsOf, Lookup, Takes, Spelled, PrefixOf, Applies;
    forall i: nat | i < |routes|
      ensures Applies(routes, host, path, i) <==> Takes(routes[i].value, host, path)
      ensures PrefixOf(routes[i]) == Spelled(routes[i].value)
    {
      AppliesIs(routes, host, path, i);
    }
    var k :| 0 <= k < |routes| && Trim(routes[k].value.match_.value.hostname) == host;
    HostIs(routes, k);
    assert HasHost(routes, host);
    RoutesByLongestPrefix(domains, defaultCluster, routes, sanitize, challenge, host, path);
    var action := Lookup(VirtualHostsOf(domains, defaultCluster, routes, sanitize, challenge), host, path);
    if exists i: nat :: i < |routes| && Applies(routes, host, path, i) {
      var i: nat :| i < |routes| && Wins(routes, host, path, i) &&
        action == Some(ToCluster(ClusterOf(routes[i], sanitize)));
      assert TakesFirst(routes, host, path, i);
    }
  }

  lemma HostIs(routes: seq<Option<Route>>, k: nat)
    requires k < |routes| && routes[k].Some? && routes[k].value.match_.Some?
    ensures HostOf(routes[k]) == Trim(routes[k].value.match_.value.hostname)
  {
    hide Trim;
  }

  /** The port that a target asks for. */
  ghost function PortAsked(t: Target): string {
    if Trim(t.port) == "" then "http" else Trim(t.port)
  }

  ghost predicate SameTarget(a: Target, b: Target) {
    Trim(a.environment) == Trim(b.environment) && Trim(a.service) == Trim(b.service) && PortAsked(a) == PortAsked(b)
  }

  /** Routes to one target have one cluster.  As far as the sanitiser tells names apart,
      routes to targets that differ in one of environment, service and port alone have
      different ones. */
  lemma TargetTells(a: Route, b: Route, sanitize: string -> string)
    requires a.target.Some? && b.target.Some? && Injective(sanitize)
    ensures
      var s, t := a.target.value, b.target.value;
      var one, other := ClusterOf(Some(a), sanitize), ClusterOf(Some(b), sanitize);
      && (SameTarget(s, t) ==> one == other)
      && (Trim(s.environment) == Trim(t.environment) && Trim(s.service) == Trim(t.service) && one == other ==>
            SameTarget(s, t))
      && (Trim(s.environment) == Trim(t.environment) && PortAsked(s) == PortAsked(t) && one == other ==>
            SameTarget(s, t))
      && (Trim(s.service) == Trim(t.service) && PortAsked(s) == PortAsked(t) && one == other ==> SameTarget(s, t))
  {
    hide Trim, EnvoyClusterName;
    var s, t := a.target.value, b.target.value;
    if ClusterOf(Some(a), sanitize) == ClusterOf(Some(b), sanitize) {
      ClusterNameTells(Trim(s.environment), Trim(s.service), PortAsked(s),
                       Trim(t.environment), Trim(t.service), PortAsked(t), sanitize);
    }
  }

  /** The target of route `r` is the http port of runtime service `rs`. */
  predicate IsFor(r: Route, rs: RuntimeService) {
    && r.target.Some?
    && Trim(r.target.value.environment) == rs.environmentName && Trim(r.target.value.service) == rs.serviceName
    && Trim(r.target.value.port) in ["", "http"]
  }

  /** The cluster of the route is the one whose endpoint the reconciler sets. */
  lemma SameCluster(reconciler: Reconcilers.Reconciler, r: Route, rs: RuntimeService)
    requires IsFor(r, rs)
    ensures ClusterOf(Some(r), reconciler.sanitize) == reconciler.ClusterFor(rs)
  {
    hide Trim;
  }

  /** From request to container.  After a successful pass over a state with this
      ingress, a request whose first taking route is for the http port of a desired web
      service goes to a cluster whose endpoint leads to a running container of a web
      service with that cluster. */
  lemma RequestIsAnswered(reconciler: Reconcilers.Reconciler, domains: seq<string>, ingress: Ingress, challenge: bool,
                          host: string, path: string, i: nat, desired: map<string, RuntimeService>, k: string)
    requires forall r <- ingress.routes :: r.Some? && r.value.match_.Some?
    requires host != "" && !(challenge && HasPrefix(path, "/.well-known/acme-challenge/"))
    requires TakesFirst(ingress.routes, host, path, i)
    requires reconciler.IsWebKey(desired, k) && IsFor(ingress.routes[i].value, desired[k])
    requires !Blank(reconciler.ClusterFor(desired[k]))
    requires reconciler.AllAlive(desired, reconciler.ClustersOf(Some(ingress)))
    ensures
      var vhosts := VirtualHostsOf(domains, reconciler.host.defaultCluster, ingress.routes, reconciler.sanitize,
                                   challenge);
      var cluster := reconciler.ClusterFor(desired[k]);
      && Lookup(vhosts, host, path) == Some(ToCluster(cluster))
      && cluster in reconciler.host.endpoints
      && var name := reconciler.host.endpoints[cluster].container;
      && name in reconciler.host.Workload() && reconciler.host.Workload()[name].running
      && var owner := Hosts.KeyOf(reconciler.host.Workload()[name]);
      && reconciler.IsWebKey(desired, owner)
      && (cluster == reconciler.host.defaultCluster || ClusterKey(reconciler.ClusterFor(desired[owner]),
                                                                  reconciler.host.defaultCluster) == cluster)
  {
    hide Trim, ClusterOf, VirtualHostsOf, Lookup, Takes, Spelled, Reconcilers.Reconciler.ClusterFor;
    var routes := ingress.routes;
    forall q | 0 <= q < |routes| ensures routes[q].Some? && routes[q].value.match_.Some? { assert routes[q] in routes; }
    TakenHost(routes[i].value, host, path);
    RequestGoes(domains, reconciler.host.defaultCluster, routes, reconciler.sanitize, challenge, host, path);
    var cluster := reconciler.ClusterFor(desired[k]);
    SameCluster(reconciler, routes[i].value, desired[k]);
    IsReferenced(routes, i, reconciler.sanitize, cluster);
    assert reconciler.ClusterOf(desired[k]) == cluster;
  }

  lemma TakenHost(r: Route, host: string, path: string)
    requires Takes(r, host, path)
    ensures Trim(r.match_.value.hostname) == host
  {
    hide Trim;
  }

  lemma IsReferenced(routes: seq<Option<Route>>, i: nat, sanitize: string -> string, cluster: string)
    requires i < |routes| && ClusterOf(routes[i], sanitize) == cluster && !Blank(cluster)
    ensures cluster in Referenced(routes, sanitize)
  {
    hide ClusterOf;
    EmptyIsBlank();
  }
}
