/** From ingress routes to Envoy's ordered route tables.  Envoy takes the first
    rule whose prefix matches; the tables are built so that this is the route
    with the longest matching prefix. */
module Routing {
  import opened Text
  import opened Sorting
  import opened ScopedKeys
  import opened DesiredStates

  const ACME_CLUSTER := "devopsellence_acme_http01"
  const ACME_PREFIX := "/.well-known/acme-challenge/"

  datatype Action = ToCluster(cluster: string) | HttpsRedirect
  datatype Rule = Rule(prefix: string, action: Action)
  datatype VirtualHost = VirtualHost(name: string, domains: seq<string>, rules: seq<Rule>)

  /** `routeEntry`. */
  datatype Entry = Entry(prefix: string, cluster: string, index: nat)

  // ---- reading a route ----

  function HostOf(route: Option<Route>): string {
    if route.Some? then RouteHost(route.value) else ""
  }

  function PrefixOf(route: Option<Route>): string {
    if route.Some? then RoutePrefix(route.value) else "/"
  }

  /** `ingressRouteClusterName`. */
  function ClusterOf(route: Option<Route>, sanitize: string -> string): string {
    var target := if route.Some? then route.value.target else None;
    var environment := if target.Some? then Trim(target.value.environment) else "";
    var service := if target.Some? then Trim(target.value.service) else "";
    EnvoyClusterName(environment, service, TargetPort(target), sanitize)
  }

  /** The clusters that routes refer to. */
  function Referenced(routes: seq<Option<Route>>, sanitize: string -> string): set<string> {
    set i | 0 <= i < |routes| && ClusterOf(routes[i], sanitize) != "" :: ClusterOf(routes[i], sanitize)
  }

  function RoutesOfIngress(ingress: Option<Ingress>): seq<Option<Route>> {
    if ingress.Some? then ingress.value.routes else []
  }

  // ---- what Envoy does with a table ----

  /** The first rule whose prefix matches. */
  function FirstMatch(rules: seq<Rule>, path: string): Option<Action> {
    if rules == [] then None
    else if HasPrefix(path, rules[0].prefix) then Some(rules[0].action)
    else FirstMatch(rules[1..], path)
  }

  /** The virtual host that lists exactly this domain. */
  function FindHost(vhosts: seq<VirtualHost>, domain: string): Option<VirtualHost> {
    if vhosts == [] then None
    else if domain in vhosts[0].domains then Some(vhosts[0])
    else FindHost(vhosts[1..], domain)
  }

  /** The action for a request: the virtual host of its exact domain, failing
      that the catch-all one, and there the first matching rule. */
  function Lookup(vhosts: seq<VirtualHost>, host: string, path: string): Option<Action> {
    var exact, all := FindHost(vhosts, host), FindHost(vhosts, "*");
    if exact.Some? then FirstMatch(exact.value.rules, path)
    else if all.Some? then FirstMatch(all.value.rules, path)
    else None
  }

  // ---- what the routes ask for ----

  /** Route `i` is for this host, and its prefix matches. */
  predicate Applies(routes: seq<Option<Route>>, host: string, path: string, i: nat)
    requires i < |routes|
  {
    HostOf(routes[i]) == host && HasPrefix(path, PrefixOf(routes[i]))
  }

  /** Route `i` applies, and among those that do it has the longest prefix; of
      several with that prefix it is the first. */
  ghost predicate Wins(routes: seq<Option<Route>>, host: string, path: string, i: nat)
    requires i < |routes|
  {
    && Applies(routes, host, path, i)
    && forall j: nat :: j < |routes| && Applies(routes, host, path, j) ==>
         |PrefixOf(routes[j])| < |PrefixOf(routes[i])| || (PrefixOf(routes[j]) == PrefixOf(routes[i]) && i <= j)
  }

  // ---- the table of one host ----

  /** The entries of `host` among the first `n` routes. */
  function EntriesUpTo(routes: seq<Option<Route>>, host: string, sanitize: string -> string, n: nat): seq<Entry>
    requires n <= |routes|
  {
    if n == 0 then []
    else
      EntriesUpTo(routes, host, sanitize, n - 1) +
      (if HostOf(routes[n - 1]) == host then [Entry(PrefixOf(routes[n - 1]), ClusterOf(routes[n - 1], sanitize),
                                                    n - 1)] else [])
  }

  function EntriesOf(routes: seq<Option<Route>>, host: string, sanitize: string -> string): seq<Entry> {
    EntriesUpTo(routes, host, sanitize, |routes|)
  }

  /** The order in which the code sorts entries: more bytes first, then input
      order. */
  predicate Before(a: Entry, b: Entry) {
    if Utf8Len(a.prefix) != Utf8Len(b.prefix) then Utf8Len(a.prefix) > Utf8Len(b.prefix) else a.index < b.index
  }

  lemma BeforeIsStrictWeakOrder()
    ensures StrictWeakOrder(Before)
  {
    hide Utf8Len;
  }

  function RulesFor(entries: seq<Entry>): seq<Rule> {
    seq(|entries|, i requires 0 <= i < |entries| => Rule(entries[i].prefix, ToCluster(entries[i].cluster)))
  }

  function AcmeRoute(): Rule {
    Rule(ACME_PREFIX, ToCluster(ACME_CLUSTER))
  }

  /** The whole table of one host. */
  function TableOf(routes: seq<Option<Route>>, host: string, sanitize: string -> string, challenge: bool): seq<Rule> {
    (if challenge then [AcmeRoute()] else []) + RulesFor(StableSort(EntriesOf(routes, host, sanitize), Before))
  }

  lemma {:induction false} EntriesSpec(routes: seq<Option<Route>>, host: string, sanitize: string -> string, n: nat)
    requires n <= |routes|
    ensures forall e :: e in EntriesUpTo(routes, host, sanitize, n) <==>
                        e.index < n && HostOf(routes[e.index]) == host &&
                        e.prefix == PrefixOf(routes[e.index]) && e.cluster == ClusterOf(routes[e.index], sanitize)
  {
    hide HostOf, PrefixOf, ClusterOf;
    if n > 0 { EntriesSpec(routes, host, sanitize, n - 1); }
  }

  // ---- byte lengths of prefixes of one path ----

  lemma {:induction false} Utf8LenPrefix(a: string, b: string)
    requires a <= b
    ensures Utf8Len(a) <= Utf8Len(b) && (Utf8Len(a) == Utf8Len(b) ==> a == b)
  {
    if a != "" {
      Utf8LenPrefix(a[1..], b[1..]);
      assert a == [a[0]] + a[1..] && b == [b[0]] + b[1..];
    }
  }

  /** Of two prefixes of one path, the one with more bytes is the longer one. */
  lemma PrefixesCompare(path: string, a: string, b: string)
    requires a <= path && b <= path
    ensures Utf8Len(a) > Utf8Len(b) <==> |a| > |b|
    ensures Utf8Len(a) == Utf8Len(b) <==> a == b
    ensures |a| == |b| <==> a == b
  {
    hide Utf8Len;
    if |a| <= |b| {
      assert a == path[..|a|] && b == path[..|b|];
      assert a <= b;
      Utf8LenPrefix(a, b);
    } else {
      assert a == path[..|a|] && b == path[..|b|];
      assert b <= a;
      Utf8LenPrefix(b, a);
    }
  }

  // ---- first match is longest prefix ----

  lemma {:induction false} FirstMatchAt(rules: seq<Rule>, path: string, p: nat)
    requires p < |rules| && HasPrefix(path, rules[p].prefix)
    requires forall q :: 0 <= q < p ==> !HasPrefix(path, rules[q].prefix)
    ensures FirstMatch(rules, path) == Some(rules[p].action)
  {
    if p > 0 {
      assert !HasPrefix(path, rules[0].prefix);
      FirstMatchAt(rules[1..], path, p - 1);
    }
  }

  lemma {:induction false} NoMatch(rules: seq<Rule>, path: string)
    requires forall q :: 0 <= q < |rules| ==> !HasPrefix(path, rules[q].prefix)
    ensures FirstMatch(rules, path) == None
  {
    if rules != [] {
      assert !HasPrefix(path, rules[0].prefix);
      NoMatch(rules[1..], path);
    }
  }

  /** Where the first matching rule of a table is, if there is one. */
  lemma {:induction false} FindMatch(rules: seq<Rule>, path: string) returns (p: nat)
    ensures p <= |rules| && (p < |rules| ==> HasPrefix(path, rules[p].prefix))
    ensures forall q :: 0 <= q < p ==> !HasPrefix(path, rules[q].prefix)
  {
    if rules == [] || HasPrefix(path, rules[0].prefix) {
      p := 0;
    } else {
      p := FindMatch(rules[1..], path);
      p := p + 1;
      forall q | 0 <= q < p ensures !HasPrefix(path, rules[q].prefix) {
        if q > 0 { assert rules[q] == rules[1..][q - 1]; }
      }
    }
  }

  /** The sorted table sends a request where its winning route points, and
      nowhere if no route applies.  This holds for any routes, validated or
      not. */
  lemma TableRefines(routes: seq<Option<Route>>, host: string, sanitize: string -> string, path: string)
    ensures forall i: nat :: i < |routes| && Wins(routes, host, path, i) ==>
              FirstMatch(TableOf(routes, host, sanitize, false), path) ==
              Some(ToCluster(ClusterOf(routes[i], sanitize)))
    ensures (forall i: nat :: i < |routes| ==> !Applies(routes, host, path, i)) ==>
              FirstMatch(TableOf(routes, host, sanitize, false), path) == None
    ensures (exists i: nat :: i < |routes| && Applies(routes, host, path, i)) ==>
              exists i: nat :: i < |routes| && Wins(routes, host, path, i)
  {
    hide HostOf, PrefixOf, ClusterOf, Utf8Len, StableSort, StrictWeakOrder, Before;
    var entries := EntriesOf(routes, host, sanitize);
    var sorted := StableSort(entries, Before);
    var rules := RulesFor(sorted);
    SortContents(entries, Before);
    SameMembers(sorted, entries);
    EntriesSpec(routes, host, sanitize, |routes|);
    assert TableOf(routes, host, sanitize, false) == rules;
    var p := FindMatch(rules, path);
    if p == |rules| {
      NoMatch(rules, path);
      forall i: nat | i < |routes| ensures !Applies(routes, host, path, i) {
        EntryOfRoute(routes, host, sanitize, i, sorted);
        if HostOf(routes[i]) == host {
          var q :| 0 <= q < |sorted| && sorted[q] == Entry(PrefixOf(routes[i]), ClusterOf(routes[i], sanitize), i);
          assert rules[q].prefix == PrefixOf(routes[i]);
        }
      }
    } else {
      var w := sorted[p].index;
      assert sorted[p] in sorted;
      FirstMatchAt(rules, path, p);
      FirstWins(routes, host, sanitize, path, sorted, p);
      forall i: nat | i < |routes| && Wins(routes, host, path, i) ensures i == w {
        OneWinner(routes, host, path, i, w);
      }
    }
  }

  lemma OneWinner(routes: seq<Option<Route>>, host: string, path: string, i: nat, j: nat)
    requires i < |routes| && j < |routes| && Wins(routes, host, path, i) && Wins(routes, host, path, j)
    ensures i == j
  {
    hide HostOf, PrefixOf;
  }

  lemma EntryOfRoute(routes: seq<Option<Route>>, host: string, sanitize: string -> string, i: nat, sorted: seq<Entry>)
    requires i < |routes| && forall e :: e in sorted <==> e in EntriesOf(routes, host, sanitize)
    ensures HostOf(routes[i]) == host ==>
            exists q :: 0 <= q < |sorted| && sorted[q] == Entry(PrefixOf(routes[i]), ClusterOf(routes[i], sanitize), i)
  {
    hide HostOf, PrefixOf, ClusterOf;
    EntriesSpec(routes, host, sanitize, |routes|);
    if HostOf(routes[i]) == host {
      assert Entry(PrefixOf(routes[i]), ClusterOf(routes[i], sanitize), i) in sorted;
    }
  }

  lemma FirstWins(routes: seq<Option<Route>>, host: string, sanitize: string -> string, path: string,
                  sorted: seq<Entry>, p: nat)
    requires sorted == StableSort(EntriesOf(routes, host, sanitize), Before)
    requires p < |sorted| && HasPrefix(path, sorted[p].prefix)
    requires forall q :: 0 <= q < p ==> !HasPrefix(path, RulesFor(sorted)[q].prefix)
    ensures sorted[p].index < |routes| && Wins(routes, host, path, sorted[p].index)
    ensures sorted[p].cluster == ClusterOf(routes[sorted[p].index], sanitize)
  {
    hide HostOf, PrefixOf, ClusterOf, Utf8Len, StableSort, StrictWeakOrder;
    var entries := EntriesOf(routes, host, sanitize);
    SortContents(entries, Before);
    SameMembers(sorted, entries);
    EntriesSpec(routes, host, sanitize, |routes|);
    BeforeIsStrictWeakOrder();
    SortSorts(entries, Before);
    assert sorted[p] in sorted;
    var w := sorted[p].index;
    forall j: nat | j < |routes| && Applies(routes, host, path, j)
      ensures |PrefixOf(routes[j])| < |PrefixOf(routes[w])| || (PrefixOf(routes[j]) == PrefixOf(routes[w]) && w <= j)
    {
      EntryOfRoute(routes, host, sanitize, j, sorted);
      var q :| 0 <= q < |sorted| && sorted[q] == Entry(PrefixOf(routes[j]), ClusterOf(routes[j], sanitize), j);
      assert RulesFor(sorted)[q].prefix == PrefixOf(routes[j]);
      PrefixesCompare(path, PrefixOf(routes[j]), PrefixOf(routes[w]));
      assert p < q ==> !Before(sorted[q], sorted[p]);
    }
  }

  // ---- building the virtual hosts ----

  function RouteNameChar(c: char): char {
    if 'a' <= c <= 'z' || 'A' <= c <= 'Z' || '0' <= c <= '9' || c == '_' || c == '-' then c else '_'
  }

  function SanitizeRouteName(value: string): string {
    var t := Trim(value);
    if t == "" then "public" else seq(|t|, i requires 0 <= i < |t| => RouteNameChar(t[i]))
  }

  /** A host is named by its own letters, digits, underscores and dashes, place by
      place; anything else becomes an underscore. */
  lemma HostNamesSpell(host: string)
    requires host != "" && Trimmed(host)
    ensures
      var name := SanitizeRouteName("public_" + host);
      && |name| == 7 + |host| && name[..7] == "public_"
      && forall i :: 0 <= i < |host| ==>
           var c := host[i];
           if 'a' <= c <= 'z' || 'A' <= c <= 'Z' || '0' <= c <= '9' || c in ['_', '-'] then name[7 + i] == c
           else name[7 + i] == '_'
  {
    hide Trim, IsSpace;
    var value := "public_" + host;
    VisibleAscii('p');
    TrimmedEnds(host);
    TrimmedEnds(value);
    assert value[0] == 'p' && value[|value| - 1] == host[|host| - 1];
  }

  function RouteDomains(domains: seq<string>): seq<string> {
    if domains == [] then ["*"] else domains
  }

  /** The hosts of the first `n` routes, each once, in the order first seen. */
  function HostsUpTo(routes: seq<Option<Route>>, n: nat): seq<string>
    requires n <= |routes|
  {
    if n == 0 then []
    else
      var hosts, host := HostsUpTo(routes, n - 1), HostOf(routes[n - 1]);
      if host == "" || host in hosts then hosts else hosts + [host]
  }

  function VirtualHostOf(routes: seq<Option<Route>>, host: string, sanitize: string -> string,
                         challenge: bool): VirtualHost {
    VirtualHost(SanitizeRouteName("public_" + host), [host], TableOf(routes, host, sanitize, challenge))
  }

  function VirtualHostsFor(hosts: seq<string>, routes: seq<Option<Route>>, sanitize: string -> string,
                           challenge: bool): seq<VirtualHost> {
    seq(|hosts|, k requires 0 <= k < |hosts| => VirtualHostOf(routes, hosts[k], sanitize, challenge))
  }

  function DefaultVirtualHost(domains: seq<string>, defaultCluster: string, challenge: bool): VirtualHost {
    VirtualHost("web", RouteDomains(domains), (if challenge then [AcmeRoute()] else []) +
                [Rule("/", ToCluster(defaultCluster))])
  }

  function VirtualHostsOf(domains: seq<string>, defaultCluster: string, routes: seq<Option<Route>>,
                          sanitize: string -> string, challenge: bool): seq<VirtualHost>
  {
    if routes == [] then [DefaultVirtualHost(domains, defaultCluster, challenge)]
    else VirtualHostsFor(HostsUpTo(routes, |routes|), routes, sanitize, challenge)
  }

  /** `grouped` and `hostOrder` after the first `n` routes. */
  ghost predicate Grouped(grouped: map<string, seq<Entry>>, hostOrder: seq<string>, routes: seq<Option<Route>>,
                          sanitize: string -> string, n: nat)
    requires n <= |routes|
  {
    && hostOrder == HostsUpTo(routes, n)
    && (forall host :: host in grouped <==> host in hostOrder)
    && (forall host <- grouped :: grouped[host] == EntriesUpTo(routes, host, sanitize, n))
  }

  lemma {:induction false} NoEntries(routes: seq<Option<Route>>, host: string, sanitize: string -> string, n: nat)
    requires n <= |routes| && host != "" && host !in HostsUpTo(routes, n)
    ensures EntriesUpTo(routes, host, sanitize, n) == []
  {
    hide HostOf;
    if n > 0 { NoEntries(routes, host, sanitize, n - 1); }
  }

  lemma GroupedStarts(routes: seq<Option<Route>>, sanitize: string -> string)
    ensures Grouped(map[], [], routes, sanitize, 0)
  {
  }

  lemma GroupedSteps(grouped: map<string, seq<Entry>>, hostOrder: seq<string>, routes: seq<Option<Route>>,
                     sanitize: string -> string, n: nat)
    requires n < |routes| && Grouped(grouped, hostOrder, routes, sanitize, n)
    ensures
      var host := HostOf(routes[n]);
      var entry := Entry(PrefixOf(routes[n]), ClusterOf(routes[n], sanitize), n);
      if host == "" then Grouped(grouped, hostOrder, routes, sanitize, n + 1)
      else Grouped(grouped[host := (if host in grouped then grouped[host] else []) + [entry]],
                   if host in grouped then hostOrder else hostOrder + [host], routes, sanitize, n + 1)
  {
    hide HostOf, PrefixOf, ClusterOf;
    var host := HostOf(routes[n]);
    NotBlankHosts(routes, n);
    if host != "" && host !in grouped { NoEntries(routes, host, sanitize, n); }
  }

  lemma {:induction false} NotBlankHosts(routes: seq<Option<Route>>, n: nat)
    requires n <= |routes|
    ensures "" !in HostsUpTo(routes, n)
    ensures Sorting.Distinct(HostsUpTo(routes, n))
    ensures forall host :: host in HostsUpTo(routes, n) <==>
      host != "" && exists i :: 0 <= i < n && HostOf(routes[i]) == host
  {
    hide HostOf;
    if n > 0 {
      NotBlankHosts(routes, n - 1);
      forall host
        ensures host in HostsUpTo(routes, n) <==> host != "" && exists i :: 0 <= i < n && HostOf(routes[i]) == host
      {
        if host in HostsUpTo(routes, n - 1) {
          var i :| 0 <= i < n - 1 && HostOf(routes[i]) == host;
          assert i < n;
        }
        if host == HostOf(routes[n - 1]) { assert n - 1 < n; }
      }
    }
  }

  lemma GroupedEnds(grouped: map<string, seq<Entry>>, hostOrder: seq<string>, routes: seq<Option<Route>>,
                    sanitize: string -> string)
    requires Grouped(grouped, hostOrder, routes, sanitize, |routes|)
    ensures forall host <- hostOrder :: host in grouped && grouped[host] == EntriesOf(routes, host, sanitize)
  {
  }

  method BuildVirtualHosts(domains: seq<string>, defaultCluster: string, ingressRoutes: seq<Option<Route>>,
                           challenge: bool, sanitize: string -> string) returns (virtualHosts: seq<VirtualHost>)
    ensures virtualHosts == VirtualHostsOf(domains, defaultCluster, ingressRoutes, sanitize, challenge)
  {
    hide HostOf, PrefixOf, ClusterOf, StableSort, Before, Grouped, SanitizeRouteName;
    if |ingressRoutes| == 0 {
      var routes: seq<Rule> := [];
      if challenge { routes := routes + [AcmeRoute()]; }
      routes := routes + [Rule("/", ToCluster(defaultCluster))];
      assert routes == DefaultVirtualHost(domains, defaultCluster, challenge).rules;
      return [VirtualHost("web", RouteDomains(domains), routes)];
    }
    var hostOrder: seq<string> := [];
    var grouped: map<string, seq<Entry>> := map[];
    GroupedStarts(ingressRoutes, sanitize);
    for i := 0 to |ingressRoutes|
      invariant Grouped(grouped, hostOrder, ingressRoutes, sanitize, i)
    {
      GroupedSteps(grouped, hostOrder, ingressRoutes, sanitize, i);
      var host := HostOf(ingressRoutes[i]);
      if host == "" { continue; }
      if host !in grouped { hostOrder := hostOrder + [host]; }
      var prefix := PrefixOf(ingressRoutes[i]);
      var entry := Entry(prefix, ClusterOf(ingressRoutes[i], sanitize), i);
      grouped := grouped[host := (if host in grouped then grouped[host] else []) + [entry]];
    }
    HostOrderIs(grouped, hostOrder, ingressRoutes, sanitize);
    GroupedEnds(grouped, hostOrder, ingressRoutes, sanitize);
    virtualHosts := [];
    for k := 0 to |hostOrder|
      invariant virtualHosts == VirtualHostsFor(hostOrder[..k], ingressRoutes, sanitize, challenge)
    {
      var host := hostOrder[k];
      var entries := StableSort(grouped[host], Before);
      var routes: seq<Rule> := [];
      if challenge { routes := routes + [AcmeRoute()]; }
      ghost var first := routes;
      for j := 0 to |entries|
        invariant routes == first + RulesFor(entries[..j])
      {
        routes := routes + [Rule(entries[j].prefix, ToCluster(entries[j].cluster))];
        RulesStep(entries, j);
      }
      assert entries[..|entries|] == entries;
      assert routes == TableOf(ingressRoutes, host, sanitize, challenge);
      VirtualHostsStep(hostOrder, ingressRoutes, sanitize, challenge, k);
      virtualHosts := virtualHosts + [VirtualHost(SanitizeRouteName("public_" + host), [host], routes)];
    }
    assert hostOrder[..|hostOrder|] == hostOrder;
  }

  lemma HostOrderIs(grouped: map<string, seq<Entry>>, hostOrder: seq<string>, routes: seq<Option<Route>>,
                    sanitize: string -> string)
    requires Grouped(grouped, hostOrder, routes, sanitize, |routes|)
    ensures hostOrder == HostsUpTo(routes, |routes|)
  {
  }

  lemma RulesStep(entries: seq<Entry>, j: nat)
    requires j < |entries|
    ensures RulesFor(entries[..j + 1]) == RulesFor(entries[..j]) +
      [Rule(entries[j].prefix, ToCluster(entries[j].cluster))]
  {
  }

  lemma VirtualHostsStep(hosts: seq<string>, routes: seq<Option<Route>>, sanitize: string -> string, challenge: bool,
                         k: nat)
    requires k < |hosts|
    ensures VirtualHostsFor(hosts[..k + 1], routes, sanitize, challenge) ==
            VirtualHostsFor(hosts[..k], routes, sanitize, challenge) +
            [VirtualHostOf(routes, hosts[k], sanitize, challenge)]
  {
    hide VirtualHostOf;
  }

  // ---- requests ----

  /** Some route is for `host`. */
  ghost predicate HasHost(routes: seq<Option<Route>>, host: string) {
    host != "" && exists i :: 0 <= i < |routes| && HostOf(routes[i]) == host
  }

  lemma {:induction false} FindHostFor(hosts: seq<string>, routes: seq<Option<Route>>, sanitize: string -> string,
                                       challenge: bool, domain: string)
    ensures FindHost(VirtualHostsFor(hosts, routes, sanitize, challenge), domain) ==
            if domain in hosts then Some(VirtualHostOf(routes, domain, sanitize, challenge)) else None
  {
    hide TableOf, SanitizeRouteName;
    if hosts != [] {
      FindHostFor(hosts[1..], routes, sanitize, challenge, domain);
      assert VirtualHostsFor(hosts, routes, sanitize, challenge)[1..] ==
        VirtualHostsFor(hosts[1..], routes, sanitize, challenge);
    }
  }

  /** With at least one route, a request goes by the table of its own host, or
      else by that of the catch-all host. */
  lemma LookupByHost(domains: seq<string>, defaultCluster: string, routes: seq<Option<Route>>,
                     sanitize: string -> string, challenge: bool, host: string, path: string)
    requires routes != []
    ensures Lookup(VirtualHostsOf(domains, defaultCluster, routes, sanitize, challenge), host, path) ==
            if HasHost(routes, host) then FirstMatch(TableOf(routes, host, sanitize, challenge), path)
            else if HasHost(routes, "*") then FirstMatch(TableOf(routes, "*", sanitize, challenge), path)
            else None
  {
    hide HostOf, TableOf, SanitizeRouteName, FirstMatch;
    var hosts := HostsUpTo(routes, |routes|);
    NotBlankHosts(routes, |routes|);
    FindHostFor(hosts, routes, sanitize, challenge, host);
    FindHostFor(hosts, routes, sanitize, challenge, "*");
    assert VirtualHostsOf(domains, defaultCluster, routes, sanitize, challenge) ==
      VirtualHostsFor(hosts, routes, sanitize, challenge);
  }

  /** With challenges on, the HTTP-01 paths go to the challenge cluster and all
      others are routed as without. */
  lemma ChallengeFirst(routes: seq<Option<Route>>, host: string, sanitize: string -> string, path: string)
    ensures FirstMatch(TableOf(routes, host, sanitize, true), path) ==
            if HasPrefix(path, ACME_PREFIX) then Some(ToCluster(ACME_CLUSTER))
            else FirstMatch(TableOf(routes, host, sanitize, false), path)
  {
    hide StableSort, EntriesUpTo, Before, RulesFor;
    var rest := RulesFor(StableSort(EntriesOf(routes, host, sanitize), Before));
    assert TableOf(routes, host, sanitize, false) == rest;
    assert TableOf(routes, host, sanitize, true) == [AcmeRoute()] + rest;
    assert ([AcmeRoute()] + rest)[1..] == rest;
  }

  /** The routing theorem.  For every request to a host that routes name: an
      HTTP-01 path goes to the challenge cluster when challenges are on, any
      other goes to the target of the one route with the longest matching
      prefix, and nowhere exactly when no route applies. */
  lemma RoutesByLongestPrefix(domains: seq<string>, defaultCluster: string, routes: seq<Option<Route>>,
                              sanitize: string -> string, challenge: bool, host: string, path: string)
    requires HasHost(routes, host)
    ensures
      var action := Lookup(VirtualHostsOf(domains, defaultCluster, routes, sanitize, challenge), host, path);
      if challenge && HasPrefix(path, ACME_PREFIX) then action == Some(ToCluster(ACME_CLUSTER))
      else if exists i: nat :: i < |routes| && Applies(routes, host, path, i) then
        exists i: nat :: i < |routes| && Wins(routes, host, path, i) &&
          action == Some(ToCluster(ClusterOf(routes[i], sanitize)))
      else action == None
  {
    hide HostOf, PrefixOf, ClusterOf, TableOf, FirstMatch, Lookup, VirtualHostsOf;
    LookupByHost(domains, defaultCluster, routes, sanitize, challenge, host, path);
    ChallengeFirst(routes, host, sanitize, path);
    TableRefines(routes, host, sanitize, path);
  }

  /** With no routes at all, every path of a served domain goes to the default
      cluster, apart from the HTTP-01 paths, and nothing goes anywhere else.  No
      domains stand for all. */
  lemma NoRoutesGoToDefault(domains: seq<string>, defaultCluster: string, sanitize: string -> string, challenge: bool,
                            host: string, path: string)
    requires HasPrefix(path, "/")
    ensures Lookup(VirtualHostsOf(domains, defaultCluster, [], sanitize, challenge), host, path) ==
            if domains == [] || host in domains || "*" in domains
            then Some(ToCluster(if challenge && HasPrefix(path, ACME_PREFIX) then ACME_CLUSTER else defaultCluster))
            else None
  {
    var vhost := DefaultVirtualHost(domains, defaultCluster, challenge);
    assert FindHost([vhost], host) == (if host in vhost.domains then Some(vhost) else None);
    assert FindHost([vhost], "*") == (if "*" in vhost.domains then Some(vhost) else None);
    var last := [Rule("/", ToCluster(defaultCluster))];
    FirstMatchAt(last, path, 0);
    if challenge {
      assert vhost.rules == [AcmeRoute()] + last && vhost.rules[1..] == last;
    } else {
      assert vhost.rules == last;
    }
  }

  // ---- the order of the routes ----

  /** What validation guarantees: no two routes share host and prefix. */
  ghost predicate DistinctMatches(routes: seq<Option<Route>>) {
    forall i, j :: 0 <= i < j < |routes| ==>
      HostOf(routes[i]) != HostOf(routes[j]) ||
      PrefixOf(routes[i]) != PrefixOf(routes[j])
  }

  lemma ValidatedMatches(routes: seq<Option<Route>>, hosts: seq<string>, services: seq<RuntimeService>)
    requires RoutesOk(routes, hosts, services)
    ensures DistinctMatches(routes)
    ensures forall i :: 0 <= i < |routes| ==> HasHost(routes, HostOf(routes[i]))
  {
    hide RouteHost, RoutePrefix, TargetOk, Sorting.Distinct;
    forall i, j | 0 <= i < j < |routes|
      ensures HostOf(routes[i]) != HostOf(routes[j]) || PrefixOf(routes[i]) != PrefixOf(routes[j])
    {
      RouteKeysPrefix(routes, i, |routes|);
      RouteKeysPrefix(routes, j, |routes|);
      DistinctPair(RouteKeys(routes, |routes|), i, j);
    }
  }

  lemma WinnerMoves(a: seq<Option<Route>>, b: seq<Option<Route>>, host: string, path: string, i: nat, j: nat)
    requires multiset(a) == multiset(b) && DistinctMatches(b)
    requires i < |a| && j < |b| && a[i] == b[j] && Wins(a, host, path, i)
    ensures Wins(b, host, path, j)
  {
    hide HostOf, PrefixOf;
    SameMembers(a, b);
    forall k: nat | k < |b| && Applies(b, host, path, k)
      ensures |PrefixOf(b[k])| < |PrefixOf(b[j])| || (PrefixOf(b[k]) == PrefixOf(b[j]) && j <= k)
    {
      assert b[k] in a;
      var m :| 0 <= m < |a| && a[m] == b[k];
      assert Applies(a, host, path, m);
    }
  }

  /** Reordering validated routes never changes where a request goes. */
  lemma OrderIsIrrelevant(domains: seq<string>, defaultCluster: string, a: seq<Option<Route>>, b: seq<Option<Route>>,
                          sanitize: string -> string, challenge: bool, host: string, path: string)
    requires multiset(a) == multiset(b) && DistinctMatches(a)
    ensures Lookup(VirtualHostsOf(domains, defaultCluster, a, sanitize, challenge), host, path) ==
            Lookup(VirtualHostsOf(domains, defaultCluster, b, sanitize, challenge), host, path)
  {
    hide HostOf, PrefixOf, ClusterOf, TableOf, FirstMatch, Lookup, VirtualHostsOf, DistinctMatches;
    SameMembers(a, b);
    MatchesPermute(a, b);
    if a != [] {
      assert a[0] in b;
      LookupByHost(domains, defaultCluster, a, sanitize, challenge, host, path);
      LookupByHost(domains, defaultCluster, b, sanitize, challenge, host, path);
      SameHosts(a, b, host);
      SameHosts(a, b, "*");
      SameTables(a, b, sanitize, challenge, host, path);
      SameTables(a, b, sanitize, challenge, "*", path);
    } else {
      assert |multiset(b)| == |b|;
    }
  }

  lemma SameHosts(a: seq<Option<Route>>, b: seq<Option<Route>>, host: string)
    requires multiset(a) == multiset(b)
    ensures HasHost(a, host) <==> HasHost(b, host)
  {
    hide HostOf;
    SameMembers(a, b);
    if HasHost(a, host) { var i :| 0 <= i < |a| && HostOf(a[i]) == host; assert a[i] in b; }
    if HasHost(b, host) { var i :| 0 <= i < |b| && HostOf(b[i]) == host; assert b[i] in a; }
  }

  /** Distinctness does not depend on the order. */
  lemma MatchesPermute(a: seq<Option<Route>>, b: seq<Option<Route>>)
    requires multiset(a) == multiset(b) && DistinctMatches(a)
    ensures DistinctMatches(b)
  {
    hide HostOf, PrefixOf;
    SameMembers(a, b);
    DistinctOf(a);
    DistinctPermuted(a, b);
    forall i, j | 0 <= i < j < |b| ensures HostOf(b[i]) != HostOf(b[j]) || PrefixOf(b[i]) != PrefixOf(b[j]) {
      assert b[i] in a && b[j] in a;
      var p :| 0 <= p < |a| && a[p] == b[i];
      var q :| 0 <= q < |a| && a[q] == b[j];
      assert p != q;
    }
  }

  lemma DistinctOf(routes: seq<Option<Route>>)
    requires DistinctMatches(routes)
    ensures Sorting.Distinct(routes)
  {
    hide HostOf, PrefixOf;
  }

  lemma SameTables(a: seq<Option<Route>>, b: seq<Option<Route>>, sanitize: string -> string, challenge: bool,
                   host: string, path: string)
    requires multiset(a) == multiset(b) && DistinctMatches(a) && DistinctMatches(b)
    ensures FirstMatch(TableOf(a, host, sanitize, challenge), path) ==
      FirstMatch(TableOf(b, host, sanitize, challenge), path)
  {
    hide HostOf, PrefixOf, ClusterOf, TableOf, FirstMatch, DistinctMatches, Wins, Applies;
    ChallengeFirst(a, host, sanitize, path);
    ChallengeFirst(b, host, sanitize, path);
    TableRefines(a, host, sanitize, path);
    TableRefines(b, host, sanitize, path);
    SameApplies(a, b, host, path);
    if i: nat :| i < |a| && Wins(a, host, path, i) {
      SameMembers(a, b);
      assert a[i] in b;
      var j: nat :| j < |b| && b[j] == a[i];
      WinnerMoves(a, b, host, path, i, j);
    }
  }

  lemma SameApplies(a: seq<Option<Route>>, b: seq<Option<Route>>, host: string, path: string)
    requires multiset(a) == multiset(b)
    ensures (exists i: nat :: i < |a| && Applies(a, host, path, i)) <==>
      (exists j: nat :: j < |b| && Applies(b, host, path, j))
  {
    hide HostOf, PrefixOf;
    SameMembers(a, b);
    if i: nat :| i < |a| && Applies(a, host, path, i) {
      assert a[i] in b;
      var j: nat :| j < |b| && b[j] == a[i];
      assert Applies(b, host, path, j);
    }
    if j: nat :| j < |b| && Applies(b, host, path, j) {
      assert b[j] in a;
      var i: nat :| i < |a| && a[i] == b[j];
      assert Applies(a, host, path, i);
    }
  }
}
