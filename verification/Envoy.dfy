/** The Envoy control plane of the agent: the configuration snapshots it builds,
    and the endpoint table it keeps between them.  Certificates, sockets and the
    Envoy container are calls that may fail. */
module Envoy {
  import opened Text
  import opened Sorting
  import opened DesiredStates
  import opened Routing
  import opened EndpointTables

  datatype Endpoint = Endpoint(address: string, port: nat)

  /** `publicIngressListenerConfig`, without ports and certificates. */
  datatype PublicListener = PublicListener(
    hosts: seq<string>, tlsEnabled: bool, challengeEnabled: bool, redirectHTTP: bool, routes: seq<Option<Route>>)

  datatype Params = Params(clusterName: string, publicIngress: Option<PublicListener>, endpoints: map<string, Endpoint>)

  datatype Listener = Listener(name: string, vhosts: seq<VirtualHost>)
  datatype Cluster = Discovered(name: string) | Static(name: string)
  datatype Assignment = Assignment(cluster: string, endpoint: Option<Endpoint>)
  datatype Snapshot = Snapshot(version: nat, listeners: seq<Listener>, clusters: seq<Cluster>,
                               assignments: seq<Assignment>)

  // ---- building a snapshot ----

  /** Some route of `routes` points to cluster `name`. */
  ghost predicate Points(routes: seq<Option<Route>>, sanitize: string -> string, name: string) {
    exists i :: 0 <= i < |routes| && ClusterOf(routes[i], sanitize) == name
  }

  function RoutesOf(p: Params): seq<Option<Route>> {
    if p.publicIngress.Some? then p.publicIngress.value.routes else []
  }

  method SnapshotClusterNames(p: Params, sanitize: string -> string) returns (names: seq<string>)
    ensures Sorting.Distinct(names)
    ensures forall name :: name in names <==>
      name != "" &&
      (name == p.clusterName || Points(RoutesOf(p), sanitize, name))
    ensures p.clusterName != "" ==> names != [] && names[0] == p.clusterName
  {
    hide ClusterOf;
    names := if p.clusterName == "" then [] else [p.clusterName];
    var routes := RoutesOf(p);
    for i := 0 to |routes|
      invariant Sorting.Distinct(names)
      invariant forall name :: name in names <==>
        name != "" &&
        (name == p.clusterName || Points(routes[..i], sanitize, name))
      invariant p.clusterName != "" ==> names != [] && names[0] == p.clusterName
    {
      PointsStep(routes, sanitize, i);
      var name := ClusterOf(routes[i], sanitize);
      if name == "" || name in names { continue; }
      names := names + [name];
    }
    assert routes[..|routes|] == routes;
  }

  lemma PointsStep(routes: seq<Option<Route>>, sanitize: string -> string, i: nat)
    requires i < |routes|
    ensures forall name :: Points(routes[..i + 1], sanitize, name) <==>
      Points(routes[..i], sanitize, name) || name == ClusterOf(routes[i], sanitize)
  {
    hide ClusterOf;
    forall name
      ensures Points(routes[..i + 1], sanitize, name) <==>
        Points(routes[..i], sanitize, name) || name == ClusterOf(routes[i], sanitize)
    {
      var less, more := routes[..i], routes[..i + 1];
      if Points(less, sanitize, name) {
        var j :| 0 <= j < i && ClusterOf(less[j], sanitize) == name;
        assert more[j] == less[j];
      }
      if name == ClusterOf(routes[i], sanitize) { assert more[i] == routes[i]; }
      if Points(more, sanitize, name) {
        var j :| 0 <= j < i + 1 && ClusterOf(more[j], sanitize) == name;
        if j < i { assert less[j] == more[j]; }
      }
    }
  }

  function RedirectListener(l: PublicListener): Listener {
    Listener("listener_public_http", [VirtualHost("redirect", RouteDomains(l.hosts),
      (if l.challengeEnabled then [AcmeRoute()] else []) + [Rule("/", HttpsRedirect)])])
  }

  /** The listeners: the local one, and with a public ingress those for HTTP and,
      with TLS, HTTPS. */
  function ListenersOf(clusterName: string, publicIngress: Option<PublicListener>,
                       sanitize: string -> string): seq<Listener> {
    var local := Listener("listener_http", VirtualHostsOf([], clusterName, [], sanitize, false));
    match publicIngress
    case None => [local]
    case Some(l) =>
      var http := if l.redirectHTTP then RedirectListener(l)
                  else Listener("listener_public_http", VirtualHostsOf(l.hosts, clusterName, l.routes, sanitize,
                                                                       l.challengeEnabled));
      var https := Listener("listener_public_https", VirtualHostsOf(l.hosts, clusterName, l.routes, sanitize, false));
      [local, http] + (if l.tlsEnabled then [https] else [])
  }

  method BuildListeners(p: Params, sanitize: string -> string) returns (listeners: seq<Listener>)
    ensures listeners == ListenersOf(p.clusterName, p.publicIngress, sanitize)
  {
    hide VirtualHostsOf;
    var vhosts := BuildVirtualHosts([], p.clusterName, [], false, sanitize);
    listeners := [Listener("listener_http", vhosts)];
    if p.publicIngress.None? { return; }
    var l := p.publicIngress.value;
    if l.redirectHTTP {
      listeners := listeners + [RedirectListener(l)];
    } else {
      vhosts := BuildVirtualHosts(l.hosts, p.clusterName, l.routes, l.challengeEnabled, sanitize);
      listeners := listeners + [Listener("listener_public_http", vhosts)];
    }
    if l.tlsEnabled {
      vhosts := BuildVirtualHosts(l.hosts, p.clusterName, l.routes, false, sanitize);
      listeners := listeners + [Listener("listener_public_https", vhosts)];
    }
  }

  /** Some rule of the table sends requests to cluster `name`. */
  ghost predicate Sends(listener: Listener, name: string) {
    exists v <- listener.vhosts, r <- v.rules :: r.action == ToCluster(name)
  }

  /** The snapshot names no cluster that it does not define, and has exactly one
      load assignment for each cluster that is discovered. */
  ghost predicate Closed(s: Snapshot) {
    && (forall l <- s.listeners, name :: name != "" && Sends(l, name) ==>
        Discovered(name) in s.clusters ||
        Static(name) in s.clusters)
    && (forall c <- s.clusters :: c.Discovered? ==> exists a <- s.assignments :: a.cluster == c.name)
    && (forall i, j :: 0 <= i < j < |s.assignments| ==> s.assignments[i].cluster != s.assignments[j].cluster)
    && (forall a <- s.assignments :: Discovered(a.cluster) in s.clusters)
  }

  function EndpointOf(endpoints: map<string, Endpoint>, name: string): Option<Endpoint> {
    if name in endpoints then Some(endpoints[name]) else None
  }

  method BuildSnapshot(version: nat, p: Params, sanitize: string -> string) returns (s: Snapshot)
    ensures s.version == version && Closed(s)
    ensures forall a <- s.assignments :: a.endpoint == EndpointOf(p.endpoints, a.cluster)
    ensures p.clusterName != "" ==> Discovered(p.clusterName) in s.clusters
    ensures forall name :: Static(name) in s.clusters <==>
              p.publicIngress.Some? && p.publicIngress.value.challengeEnabled && name == ACME_CLUSTER
    ensures s.listeners == ListenersOf(p.clusterName, p.publicIngress, sanitize)
  {
    hide ClusterOf, VirtualHostsOf, Sends, ListenersOf, Closed, Points;
    var listeners := BuildListeners(p, sanitize);
    var clusterNames := SnapshotClusterNames(p, sanitize);
    var clusters: seq<Cluster> := [];
    for i := 0 to |clusterNames|
      invariant |clusters| == i && forall k :: 0 <= k < i ==> clusters[k] == Discovered(clusterNames[k])
    {
      clusters := clusters + [Discovered(clusterNames[i])];
    }
    ghost var discovered := clusters;
    var challenge := p.publicIngress.Some? && p.publicIngress.value.challengeEnabled;
    if challenge { clusters := clusters + [Static(ACME_CLUSTER)]; }
    var endpoints: seq<Assignment> := [];
    for i := 0 to |clusterNames|
      invariant |endpoints| == i
      invariant forall k :: 0 <= k < i ==>
        endpoints[k] ==
        Assignment(clusterNames[k], EndpointOf(p.endpoints, clusterNames[k]))
    {
      endpoints := endpoints + [Assignment(clusterNames[i], EndpointOf(p.endpoints, clusterNames[i]))];
    }
    s := Snapshot(version, listeners, clusters, endpoints);
    SnapshotCloses(s, p, sanitize, clusterNames, discovered);
  }

  lemma SnapshotCloses(s: Snapshot, p: Params, sanitize: string -> string, names: seq<string>, discovered: seq<Cluster>)
    requires s.listeners == ListenersOf(p.clusterName, p.publicIngress, sanitize)
    requires Sorting.Distinct(names)
    requires forall name :: name in names <==>
      name != "" &&
      (name == p.clusterName || Points(RoutesOf(p), sanitize, name))
    requires |discovered| == |names| && forall k :: 0 <= k < |names| ==> discovered[k] == Discovered(names[k])
    requires
      var challenge := p.publicIngress.Some? && p.publicIngress.value.challengeEnabled;
      s.clusters == discovered + if challenge then [Static(ACME_CLUSTER)] else []
    requires |s.assignments| == |names|
    requires forall k :: 0 <= k < |names| ==>
      s.assignments[k] ==
      Assignment(names[k], EndpointOf(p.endpoints, names[k]))
    ensures Closed(s)
    ensures forall a <- s.assignments :: a.endpoint == EndpointOf(p.endpoints, a.cluster)
    ensures p.clusterName != "" ==> Discovered(p.clusterName) in s.clusters
    ensures forall name :: Static(name) in s.clusters <==>
              p.publicIngress.Some? && p.publicIngress.value.challengeEnabled && name == ACME_CLUSTER
  {
    hide ClusterOf, ListenersOf, Sends, Points, EndpointOf;
    ClustersOfNames(names, discovered);
    assert forall c <- s.clusters :: c in discovered || c == Static(ACME_CLUSTER);
    assert forall c <- discovered :: c in s.clusters;
    forall l <- s.listeners, name | name != "" && Sends(l, name)
      ensures Discovered(name) in s.clusters || Static(name) in s.clusters
    {
      ListenerSends(p, sanitize, s.listeners, l, name);
    }
    forall c <- s.clusters | c.Discovered? ensures exists a <- s.assignments :: a.cluster == c.name {
      var k :| 0 <= k < |names| && names[k] == c.name;
      assert s.assignments[k] in s.assignments;
    }
    forall a <- s.assignments
      ensures a.endpoint == EndpointOf(p.endpoints, a.cluster) && Discovered(a.cluster) in s.clusters
    {
      var k :| 0 <= k < |names| && s.assignments[k] == a;
      assert names[k] in names;
    }
  }

  lemma ClustersOfNames(names: seq<string>, clusters: seq<Cluster>)
    requires |clusters| == |names| && forall k :: 0 <= k < |names| ==> clusters[k] == Discovered(names[k])
    ensures forall name :: name in names <==> Discovered(name) in clusters
    ensures forall c <- clusters :: c.Discovered? && c.name in names
  {
    forall name | name in names ensures Discovered(name) in clusters {
      var k :| 0 <= k < |names| && names[k] == name;
      assert clusters[k] == Discovered(name);
    }
  }

  lemma ListenerSends(p: Params, sanitize: string -> string, listeners: seq<Listener>, l: Listener, name: string)
    requires listeners == ListenersOf(p.clusterName, p.publicIngress, sanitize)
    requires l in listeners && Sends(l, name)
    ensures name == p.clusterName || Points(RoutesOf(p), sanitize, name) ||
            (p.publicIngress.Some? && p.publicIngress.value.challengeEnabled && name == ACME_CLUSTER)
  {
    hide VirtualHostsOf, ClusterOf, Points, Sends;
    var i :| 0 <= i < |listeners| && listeners[i] == l;
    if i == 0 {
      NothingPoints(sanitize, name);
      TableSends([], p.clusterName, [], sanitize, false, l, name);
    } else {
      var public := p.publicIngress.value;
      if i == 1 && public.redirectHTTP {
        RedirectSends(public, name);
      } else {
        TableSends(public.hosts, p.clusterName, public.routes, sanitize, i == 1 && public.challengeEnabled, l, name);
      }
    }
  }

  lemma NothingPoints(sanitize: string -> string, name: string)
    ensures !Points([], sanitize, name)
  {
  }

  lemma RedirectSends(l: PublicListener, name: string)
    requires Sends(RedirectListener(l), name)
    ensures l.challengeEnabled && name == ACME_CLUSTER
  {
  }

  lemma TableSends(domains: seq<string>, defaultCluster: string, routes: seq<Option<Route>>, sanitize: string -> string,
                   challenge: bool, l: Listener, name: string)
    requires l.vhosts == VirtualHostsOf(domains, defaultCluster, routes, sanitize, challenge) && Sends(l, name)
    ensures name == defaultCluster || Points(routes, sanitize, name) || (challenge && name == ACME_CLUSTER)
  {
    hide HostOf, PrefixOf, ClusterOf, StableSort, Before, SanitizeRouteName, HostsUpTo;
    var v, r :| v in l.vhosts && r in v.rules && r.action == ToCluster(name);
    if routes != [] {
      var hosts := HostsUpTo(routes, |routes|);
      var k :| 0 <= k < |hosts| && v == VirtualHostOf(routes, hosts[k], sanitize, challenge);
      var entries := EntriesOf(routes, hosts[k], sanitize);
      var sorted := StableSort(entries, Before);
      SortContents(entries, Before);
      SameMembers(sorted, entries);
      EntriesSpec(routes, hosts[k], sanitize, |routes|);
      if r in RulesFor(sorted) {
        var q :| 0 <= q < |sorted| && RulesFor(sorted)[q] == r;
        assert sorted[q] in sorted;
      }
    }
  }

  // ---- where a snapshot sends requests ----

  /** Requests to any host that a route names go to the target of its longest
      matching route, HTTP-01 paths apart when challenges are on. */
  ghost predicate LongestPrefix(vhosts: seq<VirtualHost>, routes: seq<Option<Route>>, sanitize: string -> string,
                                challenge: bool) {
    forall host, path :: HasHost(routes, host) ==> SentByLongest(vhosts, routes, sanitize, challenge, host, path)
  }

  ghost predicate SentByLongest(vhosts: seq<VirtualHost>, routes: seq<Option<Route>>, sanitize: string -> string,
                                challenge: bool, host: string, path: string)
  {
    var action := Lookup(vhosts, host, path);
    if challenge && HasPrefix(path, ACME_PREFIX) then action == Some(ToCluster(ACME_CLUSTER))
    else if exists i: nat :: i < |routes| && Applies(routes, host, path, i) then
      exists i: nat :: i < |routes| && Wins(routes, host, path, i) &&
        action == Some(ToCluster(ClusterOf(routes[i], sanitize)))
    else action == None
  }

  /** Requests are told to come back by HTTPS, HTTP-01 paths apart. */
  ghost predicate Redirects(vhosts: seq<VirtualHost>, hosts: seq<string>, challenge: bool) {
    forall host, path :: (hosts == [] || host in hosts) && HasPrefix(path, "/") ==>
      Lookup(vhosts, host, path) ==
      Some(if challenge && HasPrefix(path, ACME_PREFIX) then ToCluster(ACME_CLUSTER) else HttpsRedirect)
  }

  /** What the listeners do with requests: the local one sends all to the default
      cluster, the public ones go by the longest matching route, or redirect. */
  ghost predicate Serves(listeners: seq<Listener>, clusterName: string, publicIngress: Option<PublicListener>,
                         sanitize: string -> string)
  {
    && (if publicIngress.None? then |listeners| == 1 else |listeners| > 1)
    && (forall host, path :: HasPrefix(path, "/") ==>
        Lookup(listeners[0].vhosts, host, path) ==
        Some(ToCluster(clusterName)))
    && (publicIngress.Some? ==>
          var l := publicIngress.value;
          && |listeners| == (if l.tlsEnabled then 3 else 2)
          && (if l.redirectHTTP then Redirects(listeners[1].vhosts, l.hosts, l.challengeEnabled)
              else LongestPrefix(listeners[1].vhosts, l.routes, sanitize, l.challengeEnabled))
          && (l.tlsEnabled ==> LongestPrefix(listeners[2].vhosts, l.routes, sanitize, false)))
  }

  lemma HostsByLongestPrefix(domains: seq<string>, defaultCluster: string, routes: seq<Option<Route>>,
                             sanitize: string -> string, challenge: bool)
    ensures LongestPrefix(VirtualHostsOf(domains, defaultCluster, routes, sanitize, challenge), routes, sanitize,
                          challenge)
  {
    hide VirtualHostsOf, Lookup, Wins, Applies, ClusterOf, HasHost;
    var vhosts := VirtualHostsOf(domains, defaultCluster, routes, sanitize, challenge);
    forall host, path | HasHost(routes, host) ensures SentByLongest(vhosts, routes, sanitize, challenge, host, path) {
      RoutesByLongestPrefix(domains, defaultCluster, routes, sanitize, challenge, host, path);
    }
  }

  lemma ListenerRedirects(l: PublicListener)
    ensures Redirects(RedirectListener(l).vhosts, l.hosts, l.challengeEnabled)
  {
    var vhost := RedirectListener(l).vhosts[0];
    var last := [Rule("/", HttpsRedirect)];
    forall host, path | (l.hosts == [] || host in l.hosts) && HasPrefix(path, "/")
      ensures Lookup([vhost], host, path) ==
              Some(if l.challengeEnabled && HasPrefix(path, ACME_PREFIX) then ToCluster(ACME_CLUSTER)
                   else HttpsRedirect)
    {
      assert FindHost([vhost], host) == (if host in vhost.domains then Some(vhost) else None);
      assert FindHost([vhost], "*") == (if "*" in vhost.domains then Some(vhost) else None);
      FirstMatchAt(last, path, 0);
      if l.challengeEnabled {
        assert vhost.rules == [AcmeRoute()] + last && vhost.rules[1..] == last;
      } else {
        assert vhost.rules == last;
      }
    }
  }

  lemma ListenersServe(clusterName: string, publicIngress: Option<PublicListener>, sanitize: string -> string)
    ensures Serves(ListenersOf(clusterName, publicIngress, sanitize), clusterName, publicIngress, sanitize)
  {
    hide VirtualHostsOf, Lookup, LongestPrefix, Redirects, RedirectListener;
    forall host, path | HasPrefix(path, "/")
      ensures Lookup(VirtualHostsOf([], clusterName, [], sanitize, false), host, path) == Some(ToCluster(clusterName))
    {
      NoRoutesGoToDefault([], clusterName, sanitize, false, host, path);
    }
    if publicIngress.Some? {
      var l := publicIngress.value;
      ListenerRedirects(l);
      HostsByLongestPrefix(l.hosts, clusterName, l.routes, sanitize, l.challengeEnabled);
      HostsByLongestPrefix(l.hosts, clusterName, l.routes, sanitize, false);
    }
  }

  // ---- the history of updates and snapshots ----

  datatype Step =
    | Update(cluster: string, endpoint: Endpoint)
    | Push(referenced: set<string>)   // a snapshot, with the clusters that the last ingress referenced

  /** The endpoint of the most recent update of any cluster. */
  function LatestOfAll(history: seq<Step>): Option<Endpoint> {
    if history == [] then None
    else
      var last := history[|history| - 1];
      if last.Update? then Some(last.endpoint) else LatestOfAll(history[..|history| - 1])
  }

  /** Step `p` is the most recent update of `cluster`, and every snapshot since
      then was made while the last ingress referenced the cluster. */
  ghost predicate HeldSince(history: seq<Step>, cluster: string, p: nat) {
    && p < |history| && history[p].Update? && history[p].cluster == cluster
    && forall q :: p < q < |history| ==>
         if history[q].Update? then history[q].cluster != cluster else cluster in history[q].referenced
  }

  /** The endpoint table is what the history says. */
  ghost predicate Agrees(history: seq<Step>, defaultCluster: string, table: map<string, Endpoint>) {
    && EndpointOf(table, defaultCluster) == LatestOfAll(history)
    && (forall c :: c != defaultCluster ==>
          (c in table <==> exists p: nat :: HeldSince(history, c, p)))
    && (forall c, p: nat :: c != defaultCluster && HeldSince(history, c, p) ==>
        c in table &&
        table[c] == history[p].endpoint)
  }

  lemma AgreesStarts(defaultCluster: string)
    ensures Agrees([], defaultCluster, map[])
  {
  }

  lemma HeldAfterUpdate(history: seq<Step>, u: Step, c: string, p: nat)
    requires u.Update?
    ensures HeldSince(history + [u], c, p) <==> if u.cluster == c then p == |history| else HeldSince(history, c, p)
  {
    var more := history + [u];
    assert more[|history|] == u;
    if u.cluster != c && HeldSince(more, c, p) {
      forall q | p < q < |history|
        ensures if history[q].Update? then history[q].cluster != c else c in history[q].referenced
      {
        assert more[q] == history[q];
      }
    }
  }

  lemma HeldAfterPush(history: seq<Step>, s: Step, c: string, p: nat)
    requires s.Push?
    ensures HeldSince(history + [s], c, p) <==> HeldSince(history, c, p) && c in s.referenced
  {
    var more := history + [s];
    assert more[|history|] == s;
    if HeldSince(more, c, p) {
      forall q | p < q < |history|
        ensures if history[q].Update? then history[q].cluster != c else c in history[q].referenced
      {
        assert more[q] == history[q];
      }
    }
  }

  lemma LatestAfter(history: seq<Step>, s: Step)
    ensures LatestOfAll(history + [s]) == if s.Update? then Some(s.endpoint) else LatestOfAll(history)
  {
    assert (history + [s])[..|history|] == history;
  }

  lemma AgreesAfterUpdate(history: seq<Step>, defaultCluster: string, table: map<string, Endpoint>, cluster: string,
                          endpoint: Endpoint)
    requires Agrees(history, defaultCluster, table)
    ensures Agrees(history + [Update(cluster, endpoint)], defaultCluster,
                   table[cluster := endpoint][defaultCluster := endpoint])
  {
    hide HeldSince;
    var u := Update(cluster, endpoint);
    var more := history + [u];
    LatestAfter(history, u);
    forall c, p: nat
      ensures HeldSince(more, c, p) <==> if c == cluster then p == |history| else HeldSince(history, c, p)
    {
      HeldAfterUpdate(history, u, c, p);
    }
    forall c, p: nat | HeldSince(more, c, p) ensures p < |more| && (p < |history| ==> more[p] == history[p]) {
      HeldBound(more, c, p);
    }
    forall c, p: nat | HeldSince(history, c, p) ensures p < |history| { HeldBound(history, c, p); }
    assert HeldSince(more, cluster, |history|);
  }

  lemma HeldBound(history: seq<Step>, c: string, p: nat)
    requires HeldSince(history, c, p)
    ensures p < |history|
  {
  }

  /** The table with a missing default entry filled in. */
  function WithDefault(table: map<string, Endpoint>, defaultCluster: string,
                       last: Option<Endpoint>): map<string, Endpoint> {
    if defaultCluster !in table && last.Some? then table[defaultCluster := last.value] else table
  }

  lemma DefaultIsThere(history: seq<Step>, defaultCluster: string, table: map<string, Endpoint>)
    requires Agrees(history, defaultCluster, table)
    ensures WithDefault(table, defaultCluster, LatestOfAll(history)) == table
  {
    hide LatestOfAll, HeldSince;
  }

  lemma AgreesAfterPush(history: seq<Step>, defaultCluster: string, table: map<string, Endpoint>,
                        referenced: set<string>)
    requires Agrees(history, defaultCluster, table)
    ensures Agrees(history + [Push(referenced)], defaultCluster, Pruned(table, defaultCluster, referenced))
  {
    hide HeldSince;
    var s := Push(referenced);
    var more := history + [s];
    LatestAfter(history, s);
    forall c, p: nat ensures HeldSince(more, c, p) <==> HeldSince(history, c, p) && c in referenced {
      HeldAfterPush(history, s, c, p);
    }
    forall c, p: nat | HeldSince(history, c, p) ensures p < |history| && more[p] == history[p] {
      HeldBound(history, c, p);
    }
  }

  // ---- the manager ----

  function IngressMode(ingress: Option<Ingress>): string {
    if ingress.None? then "internal" else if Blank(ingress.value.mode) then "public" else Trim(ingress.value.mode)
  }

  function TLSMode(ingress: Option<Ingress>): string {
    if ingress.None? || ingress.value.tlsMode.None? || Blank(ingress.value.tlsMode.value) then "auto"
      else Trim(ingress.value.tlsMode.value)
  }

  datatype Call =
    | UpdateCluster(cluster: string, address: string, port: nat)
    | EnsureIngress(ingress: Option<Ingress>)
    | Restart

  ghost predicate Increasing(pushed: seq<Snapshot>, version: nat) {
    && (forall i, j :: 0 <= i < j < |pushed| ==> pushed[i].version < pushed[j].version)
    && (forall s <- pushed :: s.version <= version)
  }

  ghost predicate AllClosed(pushed: seq<Snapshot>) {
    forall s <- pushed :: Closed(s)
  }

  /** The public listener that the ingress asks for: its hosts, routes, redirect and
      challenges, if it is public. */
  ghost predicate Configured(ingress: Option<Ingress>, config: Option<PublicListener>) {
    if !IsPublic(ingress) then config == None
    else
      var i, word := ingress.value, TLSWord(ingress.value);
      && config.Some? && config.value.routes == i.routes
      && Sorting.Distinct(config.value.hosts)
      && (forall h :: h in config.value.hosts <==> h != "" && exists v <- i.hosts :: Trim(v) == h)
      && config.value.challengeEnabled == (word in ["", "auto"])
      && config.value.redirectHTTP == (config.value.tlsEnabled && i.redirectHTTP)
      && (config.value.tlsEnabled ==> word != "off")
      && (!config.value.tlsEnabled ==> word in ["", "auto", "off"])
  }

  lemma ModesAre(ingress: Option<Ingress>)
    ensures IngressMode(ingress) == "public" <==> IsPublic(ingress)
    ensures IsPublic(ingress) ==> ingress.Some?
    ensures ingress.Some? ==>
      && (TLSMode(ingress) == "auto" <==> TLSWord(ingress.value) in ["", "auto"])
      && (TLSMode(ingress) == "off" <==> TLSWord(ingress.value) == "off")
  {
    hide Trim;
    assert "auto"[0] != "off"[0] && "internal"[0] != "public"[0];
  }

  /** The snapshot routes as the ingress asks. */
  ghost predicate ServesIngress(s: Snapshot, ingress: Option<Ingress>, clusterName: string,
                                sanitize: string -> string) {
    exists config :: Configured(ingress, config) && Serves(s.listeners, clusterName, config, sanitize)
  }

  /** Every snapshot routes as the ingress asks that it was made for. */
  ghost predicate AllServe(pushed: seq<Snapshot>, made: seq<Option<Ingress>>, clusterName: string,
                           sanitize: string -> string) {
    && |made| == |pushed|
    && forall i :: 0 <= i < |pushed| ==> ServesIngress(pushed[i], made[i], clusterName, sanitize)
  }

  /** Every load assignment of the snapshot is the table's. */
  ghost predicate Shows(s: Snapshot, table: map<string, Endpoint>) {
    forall a <- s.assignments :: a.endpoint == EndpointOf(table, a.cluster)
  }

  class Manager {
    const clusterName: string
    const certificatesConfigured: bool
    const sanitize: string -> string

    var lastIngress: Option<Ingress>
    var lastEndpoint: Option<Endpoint>
    var lastEndpoints: map<string, Endpoint>
    var snapshotVersion: nat
    /** What was handed to Envoy. */
    ghost var pushed: seq<Snapshot>
    /** The ingress that each of them was made for. */
    ghost var made: seq<Option<Ingress>>
    ghost var history: seq<Step>

    ghost predicate Valid()
      reads this
    {
      && Agrees(history, clusterName, lastEndpoints)
      && lastEndpoint == LatestOfAll(history)
      && Increasing(pushed, snapshotVersion)
      && AllClosed(pushed)
      && AllServe(pushed, made, clusterName, sanitize)
    }

    constructor (clusterName: string, certificatesConfigured: bool, sanitize: string -> string)
      ensures Valid() && this.clusterName == clusterName && this.sanitize == sanitize
      ensures lastIngress == None && lastEndpoints == map[] && history == [] && pushed == []
    {
      this.clusterName, this.certificatesConfigured, this.sanitize := clusterName, certificatesConfigured, sanitize;
      lastIngress, lastEndpoint, lastEndpoints, snapshotVersion := None, None, map[], 0;
      pushed, made, history := [], [], [];
      new;
      AgreesStarts(clusterName);
    }

    /** The public listener an ingress asks for, or an error.  Reading the two
        certificate files may fail; with automatic TLS a missing file only means
        that TLS is not on yet. */
    method PublicIngressListenerConfig(ingress: Option<Ingress>) returns (ok: bool, config: Option<PublicListener>)
      ensures !ok ==> IsPublic(ingress) && TLSWord(ingress.value) != "off"
      ensures ok ==> Configured(ingress, config)
      ensures ok && config.Some? && config.value.tlsEnabled ==> certificatesConfigured
    {
      hide Trim, IngressMode, TLSMode, IsPublic, TLSWord;
      ok, config := true, None;
      ModesAre(ingress);
      if IngressMode(ingress) != "public" { return; }
      var hosts := UniqueHosts(ingress.value.hosts);
      var tls := TLSMode(ingress);
      var listener := PublicListener(hosts, false, tls == "auto", false, ingress.value.routes);
      if tls != "off" {
        if !certificatesConfigured { return false, None; }
        var missing: bool, unreadable: bool := *, *;
        if missing && tls == "auto" { return true, Some(listener); }
        if missing || unreadable { return false, None; }
        listener := listener.(tlsEnabled := true, redirectHTTP := ingress.value.redirectHTTP);
      }
      config := Some(listener);
    }

    /** `ingressHosts`. */
    method UniqueHosts(values: seq<string>) returns (hosts: seq<string>)
      ensures Sorting.Distinct(hosts)
      ensures forall h :: h in hosts <==> h != "" && exists v <- values :: Trim(v) == h
    {
      hide Trim;
      IngressHostsAre(values);
      hosts := [];
      for i := 0 to |values|
        invariant Sorting.Distinct(hosts)
        invariant forall h :: h in hosts || h in IngressHosts(values[i..]) <==> h in IngressHosts(values)
        invariant forall h <- hosts :: h in IngressHosts(values)
      {
        assert values[i..][1..] == values[i + 1..];
        var host := Trim(values[i]);
        if host == "" || host in hosts { continue; }
        hosts := hosts + [host];
      }
    }

    method SnapshotEndpoints() returns (endpoints: map<string, Endpoint>)
      modifies this`lastEndpoints
      ensures lastEndpoints == Pruned(WithDefault(old(lastEndpoints), clusterName, lastEndpoint), clusterName,
                                      Referenced(RoutesOfIngress(lastIngress), sanitize))
      ensures endpoints == lastEndpoints
    {
      hide ClusterOf, Pruned, Referenced;
      var table := lastEndpoints;
      endpoints := map[];
      ghost var full := WithDefault(table, clusterName, lastEndpoint);
      PrunedToDefault(full, clusterName);
      if clusterName in table {
        endpoints := endpoints[clusterName := table[clusterName]];
      } else if lastEndpoint.Some? {
        endpoints := endpoints[clusterName := lastEndpoint.value];
      }
      var routes := RoutesOfIngress(lastIngress);
      NothingReferenced(routes, sanitize);
      for i := 0 to |routes|
        invariant lastEndpoints == table
        invariant endpoints == Pruned(full, clusterName, Referenced(routes[..i], sanitize))
      {
        ReferencedStep(routes, sanitize, i);
        assert Referenced(routes[..i], sanitize) + {} == Referenced(routes[..i], sanitize);
        var name := ClusterOf(routes[i], sanitize);
        if name == "" { continue; }
        PrunedMore(full, clusterName, Referenced(routes[..i], sanitize), name);
        DefaultIsPruned(table, clusterName, lastEndpoint, Referenced(routes[..i], sanitize), name);
        if name in table { endpoints := endpoints[name := table[name]]; }
      }
      assert routes[..|routes|] == routes;
      lastEndpoints := endpoints;
    }

    /** Builds a snapshot of the present table and hands it to Envoy, which may
        refuse it. */
    method ApplySnapshot(publicIngress: Option<PublicListener>, ghost ingress: Option<Ingress>) returns (ok: bool)
      requires Valid() && Configured(ingress, publicIngress)
      modifies this`lastEndpoints, this`snapshotVersion, this`pushed, this`made, this`history
      ensures Valid()
      ensures history == old(history) + [Push(Referenced(RoutesOfIngress(lastIngress), sanitize))]
      ensures lastEndpoints == Pruned(old(lastEndpoints), clusterName,
                                      Referenced(RoutesOfIngress(lastIngress), sanitize))
      ensures snapshotVersion == old(snapshotVersion) + 1
      ensures if ok then |pushed| == |old(pushed)| + 1 && pushed[..|old(pushed)|] == old(pushed) &&
                         pushed[|old(pushed)|].version == snapshotVersion &&
                         Shows(pushed[|old(pushed)|], lastEndpoints) &&
                         pushed[|old(pushed)|].listeners == ListenersOf(clusterName, publicIngress, sanitize)
              else pushed == old(pushed)
      ensures made == old(made) + if ok then [ingress] else []
    {
      hide Agrees, LatestOfAll, Closed, Pruned, Referenced, WithDefault, Serves, ListenersOf, Configured;
      DefaultIsThere(history, clusterName, lastEndpoints);
      AgreesAfterPush(history, clusterName, lastEndpoints, Referenced(RoutesOfIngress(lastIngress), sanitize));
      LatestAfter(history, Push(Referenced(RoutesOfIngress(lastIngress), sanitize)));
      snapshotVersion := snapshotVersion + 1;
      VersionMoves(pushed, snapshotVersion - 1);
      var endpoints := SnapshotEndpoints();
      history := history + [Push(Referenced(RoutesOfIngress(lastIngress), sanitize))];
      var snapshot := BuildSnapshot(snapshotVersion, Params(clusterName, publicIngress, endpoints), sanitize);
      ListenersServe(clusterName, publicIngress, sanitize);
      ok := *;
      if ok { pushed, made := pushed + [snapshot], made + [ingress]; }
    }

    /** A blank cluster name stands for the default one, and the default cluster
        follows every update. */
    method UpdateClusterEDS(cluster: string, address: string, port: nat) returns (ok: bool)
      requires Valid()
      modifies this
      ensures Valid() && lastIngress == old(lastIngress)
      ensures old(pushed) <= pushed && (ok ==>
                                        |pushed| == |old(pushed)| + 1 &&
                                        Shows(pushed[|old(pushed)|], lastEndpoints))
      ensures ok ==> made == old(made) + [lastIngress]
      ensures clusterName in lastEndpoints && lastEndpoints[clusterName] == Endpoint(address, port)
      ensures ok ==>
        lastEndpoints == Pruned(Updated(old(lastEndpoints), cluster, clusterName, Endpoint(address, port)), clusterName,
                                Referenced(RoutesOfIngress(lastIngress), sanitize))
    {
      hide Trim, Agrees, LatestOfAll, Referenced, Closed, AllServe, ListenersOf, Configured;
      var name := if Blank(cluster) then clusterName else cluster;
      var endpoint := Endpoint(address, port);
      AgreesAfterUpdate(history, clusterName, lastEndpoints, name, endpoint);
      LatestAfter(history, Update(name, endpoint));
      lastEndpoint := Some(endpoint);
      lastEndpoints := lastEndpoints[name := endpoint];
      EmptyIsBlank();
      if name != "" { lastEndpoints := lastEndpoints[clusterName := endpoint]; }
      history := history + [Update(name, endpoint)];
      MirroredTwice(old(lastEndpoints), name, clusterName, endpoint);
      ghost var table := lastEndpoints;
      var config;
      ok, config := PublicIngressListenerConfig(lastIngress);
      if !ok { return; }
      ok := ApplySnapshot(config, lastIngress);
    }

    /** The new ingress only takes effect on the table after the snapshot. */
    method Ensure(ingress: Option<Ingress>) returns (ok: bool)
      requires Valid()
      modifies this
      ensures Valid() && old(pushed) <= pushed
      ensures lastIngress == if ok then ingress else old(lastIngress)
      ensures ok ==> lastEndpoints == Pruned(old(lastEndpoints), clusterName,
                                             Referenced(RoutesOfIngress(old(lastIngress)), sanitize))
      ensures ok ==> |pushed| == |old(pushed)| + 1 && Shows(pushed[|old(pushed)|], lastEndpoints)
      ensures ok ==> made == old(made) + [ingress]
    {
      hide Agrees, LatestOfAll, Referenced, Closed, Increasing, AllClosed, AllServe, Pruned, Shows, Configured,
           ListenersOf;
      var config;
      ok, config := PublicIngressListenerConfig(ingress);
      if !ok { return; }
      ok := ApplySnapshot(config, ingress);
      if !ok { return; }
      ok := *;   // the network, the image, the container and its readiness
      if ok { lastIngress := ingress; }
    }

    /** `restart`, up to the engine calls around it. */
    method Restart() returns (ok: bool)
      requires Valid()
      modifies this
      ensures Valid() && old(pushed) <= pushed && lastIngress == old(lastIngress)
      ensures ok ==> lastEndpoints == Pruned(old(lastEndpoints), clusterName,
                                             Referenced(RoutesOfIngress(lastIngress), sanitize))
      ensures ok ==> |pushed| == |old(pushed)| + 1 && Shows(pushed[|old(pushed)|], lastEndpoints)
      ensures ok ==> made == old(made) + [lastIngress]
    {
      hide Agrees, LatestOfAll, Referenced, Closed, Increasing, AllClosed, AllServe, Pruned, Shows, Configured,
           ListenersOf;
      ok := *;
      if !ok { return; }
      var config;
      ok, config := PublicIngressListenerConfig(lastIngress);
      if !ok { return; }
      ok := *;
      if ok { ok := ApplySnapshot(config, lastIngress); }
    }

    /** Whatever the sequence of calls, the table agrees with the history, every
        snapshot handed out is closed, and versions strictly increase. */
    method Drive(calls: seq<Call>)
      requires Valid()
      modifies this
      ensures Valid() && old(pushed) <= pushed
    {
      hide Agrees, LatestOfAll, Referenced, Closed, Increasing, AllClosed, AllServe, Pruned, Shows, Configured,
           ListenersOf;
      for i := 0 to |calls|
        invariant Valid() && old(pushed) <= pushed
      {
        var ok: bool;
        match calls[i] {
          case UpdateCluster(cluster, address, port) => ok := UpdateClusterEDS(cluster, address, port);
          case EnsureIngress(ingress) => ok := Ensure(ingress);
          case Restart => ok := this.Restart();
        }
      }
    }
  }

  lemma NothingReferenced(routes: seq<Option<Route>>, sanitize: string -> string)
    ensures Referenced(routes[..0], sanitize) == {}
  {
  }

  /** A default entry that was filled in is not filled in again. */
  lemma DefaultIsPruned(table: map<string, Endpoint>, defaultCluster: string, last: Option<Endpoint>,
                        referenced: set<string>, name: string)
    ensures
      var full := WithDefault(table, defaultCluster, last);
      && (name in table ==> name in full && full[name] == table[name])
      && (name in full && name !in table ==>
            Pruned(full, defaultCluster, referenced)[name := full[name]] == Pruned(full, defaultCluster, referenced))
  {
  }

  lemma VersionMoves(pushed: seq<Snapshot>, version: nat)
    requires Increasing(pushed, version)
    ensures Increasing(pushed, version + 1)
    ensures forall s: Snapshot :: s.version == version + 1 ==> Increasing(pushed + [s], version + 1)
  {
  }

  lemma MirroredTwice(table: map<string, Endpoint>, name: string, defaultCluster: string, endpoint: Endpoint)
    ensures name == defaultCluster ==> table[name := endpoint] == table[name := endpoint][defaultCluster := endpoint]
  {
  }

  lemma ReferencedStep(routes: seq<Option<Route>>, sanitize: string -> string, i: nat)
    requires i < |routes|
    ensures
      var name := ClusterOf(routes[i], sanitize);
      Referenced(routes[..i + 1], sanitize) == Referenced(routes[..i], sanitize) + if name == "" then {} else {name}
  {
    hide ClusterOf;
    var less, more := routes[..i], routes[..i + 1];
    assert more[i] == routes[i];
    forall name ensures name in Referenced(more, sanitize) <==>
                        name in Referenced(less, sanitize) || (name != "" && name == ClusterOf(routes[i], sanitize)) {
      if name in Referenced(less, sanitize) {
        var j :| 0 <= j < i && ClusterOf(less[j], sanitize) == name;
        assert more[j] == less[j];
      }
      if name in Referenced(more, sanitize) {
        var j :| 0 <= j < i + 1 && ClusterOf(more[j], sanitize) == name;
        if j < i { assert less[j] == more[j]; }
      }
    }
  }
}
