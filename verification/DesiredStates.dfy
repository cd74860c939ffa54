/** The desired state document, its validation, and its flattening into the
    services and tasks that the agent works on.  `sanitize` is left abstract:
    every result holds for any name sanitiser. */
module DesiredStates {
  import opened Text
  import opened ScopedKeys
  import Sorting

  const CURRENT_SCHEMA_VERSION := 2
  const KIND_WEB := "web"
  const KIND_WORKER := "worker"
  const KIND_ACCESSORY := "accessory"
  const DEFAULT_HTTP_PORT_NAME := "http"
  const MODE_PUBLIC := "public"

  datatype Port = Port(name: string, number: nat)
  datatype Mount = Mount(source: string, target: string)
  datatype Healthcheck = Healthcheck(path: string, port: nat, retries: int)
  datatype Service = Service(
    name: string, kind: string, image: string, env: map<string, string>, secretRefs: map<string, string>,
    mounts: seq<Mount>, ports: seq<Option<Port>>, healthcheck: Option<Healthcheck>)
  datatype Task = Task(
    name: string, image: string, entrypoint: seq<string>, command: seq<string>,
    env: map<string, string>, secretRefs: map<string, string>, mounts: seq<Mount>)
  datatype Environment = Environment(
    name: string, revision: string, services: seq<Option<Service>>, tasks: seq<Option<Task>>)
  datatype RouteMatch = RouteMatch(hostname: string, pathPrefix: string)
  datatype Target = Target(environment: string, service: string, port: string)
  datatype Route = Route(match_: Option<RouteMatch>, target: Option<Target>)
  datatype Ingress = Ingress(
    mode: string, hosts: seq<string>, tlsMode: Option<string>, redirectHTTP: bool, routes: seq<Option<Route>>)
  datatype DesiredState = DesiredState(
    revision: string, schemaVersion: int, environments: seq<Option<Environment>>, ingress: Option<Ingress>)

  datatype RuntimeService = RuntimeService(
    environmentName: string, environmentRevision: string, serviceName: string, serviceKind: string, service: Service)
  datatype RuntimeTask = RuntimeTask(environmentName: string, environmentRevision: string, task: Task)

  // ---- flattening ----

  function NormalizedServiceKind(service: Service): string {
    if !Blank(service.kind) then Trim(service.kind)
    else if Trim(service.name) == KIND_WEB then KIND_WEB
    else KIND_WORKER
  }

  function EnvRevision(state: DesiredState, env: Environment): string {
    if Blank(env.revision) then Trim(state.revision) else Trim(env.revision)
  }

  function RuntimeServiceOf(state: DesiredState, env: Environment, service: Service): RuntimeService {
    RuntimeService(Trim(env.name), EnvRevision(state, env), Trim(service.name), NormalizedServiceKind(service), service)
  }

  /** The runtime services of the first `n` services of `env`. */
  function EnvServices(state: DesiredState, env: Environment, n: nat): seq<RuntimeService>
    requires n <= |env.services|
  {
    if n == 0 then []
    else EnvServices(state, env, n - 1) +
         (if env.services[n - 1].Some? then [RuntimeServiceOf(state, env, env.services[n - 1].value)] else [])
  }

  /** The runtime services of the first `n` environments. */
  function ServicesUpTo(state: DesiredState, n: nat): seq<RuntimeService>
    requires n <= |state.environments|
  {
    if n == 0 then []
    else
      var env := state.environments[n - 1];
      ServicesUpTo(state, n - 1) + (if env.Some? then EnvServices(state, env.value, |env.value.services|) else [])
  }

  function AllServices(state: DesiredState): seq<RuntimeService> {
    ServicesUpTo(state, |state.environments|)
  }

  /** Service `j` of environment `i` is there, and comes out as `rs`. */
  ghost predicate IsServiceAt(state: DesiredState, i: int, j: int, rs: RuntimeService) {
    && 0 <= i < |state.environments| && state.environments[i].Some?
    && var env := state.environments[i].value;
    && 0 <= j < |env.services| && env.services[j].Some?
    && rs.service == env.services[j].value
    && rs.environmentName == Trim(env.name) && rs.serviceName == Trim(rs.service.name)
    && rs.environmentRevision == Trim(if Blank(env.revision) then state.revision else env.revision)
    && rs.serviceKind == (if !Blank(rs.service.kind) then Trim(rs.service.kind)
                          else if rs.serviceName == "web" then "web" else "worker")
  }

  lemma ServiceComesOut(state: DesiredState, i: int, j: int)
    requires 0 <= i < |state.environments| && state.environments[i].Some?
    requires 0 <= j < |state.environments[i].value.services| && state.environments[i].value.services[j].Some?
    ensures
      var env := state.environments[i].value;
      IsServiceAt(state, i, j, RuntimeServiceOf(state, env, env.services[j].value))
  {
    hide Trim;
  }

  lemma {:induction false} EnvServiceMembers(state: DesiredState, i: nat, n: nat)
    requires i < |state.environments| && state.environments[i].Some?
    requires n <= |state.environments[i].value.services|
    ensures forall rs :: rs in EnvServices(state, state.environments[i].value, n) <==>
                         exists j :: j < n && IsServiceAt(state, i, j, rs)
  {
    hide Trim;
    if n > 0 {
      EnvServiceMembers(state, i, n - 1);
      var env := state.environments[i].value;
      forall rs ensures rs in EnvServices(state, env, n) <==> exists j :: j < n && IsServiceAt(state, i, j, rs) {
        if env.services[n - 1].Some? && rs == RuntimeServiceOf(state, env, env.services[n - 1].value) {
          assert IsServiceAt(state, i, n - 1, rs);
        }
      }
    }
  }

  ghost predicate IsServiceOf(state: DesiredState, n: nat, rs: RuntimeService) {
    exists i, j :: i < n && IsServiceAt(state, i, j, rs)
  }

  /** The runtime services are exactly the services of the environments. */
  lemma {:induction false} ServiceMembers(state: DesiredState, n: nat)
    requires n <= |state.environments|
    ensures forall rs :: rs in ServicesUpTo(state, n) <==> IsServiceOf(state, n, rs)
  {
    hide Trim, EnvServices, IsServiceAt;
    forall rs ensures rs in ServicesUpTo(state, n) <==> IsServiceOf(state, n, rs) {
      if n > 0 {
        ServiceMembers(state, n - 1);
        if state.environments[n - 1].Some? {
          EnvServiceMembers(state, n - 1, |state.environments[n - 1].value.services|);
        }
        if i, j :| i < n && IsServiceAt(state, i, j, rs) {
          ServiceAtPlace(state, i, j, rs);
          assert i < n - 1 ==> IsServiceOf(state, n - 1, rs);
        }
      } else if i, j :| i < n && IsServiceAt(state, i, j, rs) {
        ServiceAtPlace(state, i, j, rs);
      }
    }
  }

  ghost predicate ServicePlace(state: DesiredState, i: int, j: int) {
    && 0 <= i < |state.environments| && state.environments[i].Some?
    && 0 <= j < |state.environments[i].value.services|
  }

  lemma ServiceAtPlace(state: DesiredState, i: int, j: int, rs: RuntimeService)
    requires IsServiceAt(state, i, j, rs)
    ensures ServicePlace(state, i, j)
  {
    hide Trim;
  }

  method RuntimeServices(state: DesiredState) returns (services: seq<RuntimeService>)
    ensures services == AllServices(state)
  {
    services := [];
    for i := 0 to |state.environments|
      invariant services == ServicesUpTo(state, i)
    {
      if state.environments[i].None? { continue; }
      var env := state.environments[i].value;
      for j := 0 to |env.services|
        invariant services == ServicesUpTo(state, i) + EnvServices(state, env, j)
      {
        if env.services[j].None? { continue; }
        services := services + [RuntimeServiceOf(state, env, env.services[j].value)];
      }
    }
  }

  function EnvTasks(state: DesiredState, env: Environment, n: nat): seq<RuntimeTask>
    requires n <= |env.tasks|
  {
    if n == 0 then []
    else EnvTasks(state, env, n - 1) +
         (if env.tasks[n - 1].Some? then [RuntimeTask(Trim(env.name), EnvRevision(state, env), env.tasks[n - 1].value)]
          else [])
  }

  function TasksUpTo(state: DesiredState, n: nat): seq<RuntimeTask>
    requires n <= |state.environments|
  {
    if n == 0 then []
    else
      var env := state.environments[n - 1];
      TasksUpTo(state, n - 1) + (if env.Some? then EnvTasks(state, env.value, |env.value.tasks|) else [])
  }

  function AllTasks(state: DesiredState): seq<RuntimeTask> {
    TasksUpTo(state, |state.environments|)
  }

  /** Task `j` of environment `i` is there, and comes out as `rt`. */
  ghost predicate IsTaskAt(state: DesiredState, i: int, j: int, rt: RuntimeTask) {
    && 0 <= i < |state.environments| && state.environments[i].Some?
    && var env := state.environments[i].value;
    && 0 <= j < |env.tasks| && env.tasks[j].Some?
    && rt.task == env.tasks[j].value && rt.environmentName == Trim(env.name)
    && rt.environmentRevision == Trim(if Blank(env.revision) then state.revision else env.revision)
  }

  lemma {:induction false} EnvTaskMembers(state: DesiredState, i: nat, n: nat)
    requires i < |state.environments| && state.environments[i].Some?
    requires n <= |state.environments[i].value.tasks|
    ensures forall rt :: rt in EnvTasks(state, state.environments[i].value, n) <==>
                         exists j :: j < n && IsTaskAt(state, i, j, rt)
  {
    hide Trim;
    if n > 0 {
      EnvTaskMembers(state, i, n - 1);
      var env := state.environments[i].value;
      forall rt ensures rt in EnvTasks(state, env, n) <==> exists j :: j < n && IsTaskAt(state, i, j, rt) {
        if env.tasks[n - 1].Some? && rt == RuntimeTask(Trim(env.name), EnvRevision(state, env),
                                                       env.tasks[n - 1].value) {
          assert IsTaskAt(state, i, n - 1, rt);
        }
      }
    }
  }

  ghost predicate IsTaskOf(state: DesiredState, n: nat, rt: RuntimeTask) {
    exists i, j :: i < n && IsTaskAt(state, i, j, rt)
  }

  /** The runtime tasks are exactly the tasks of the environments. */
  lemma {:induction false} TaskMembers(state: DesiredState, n: nat)
    requires n <= |state.environments|
    ensures forall rt :: rt in TasksUpTo(state, n) <==> IsTaskOf(state, n, rt)
  {
    hide Trim, EnvTasks, IsTaskAt;
    forall rt ensures rt in TasksUpTo(state, n) <==> IsTaskOf(state, n, rt) {
      if n > 0 {
        TaskMembers(state, n - 1);
        if state.environments[n - 1].Some? { EnvTaskMembers(state, n - 1, |state.environments[n - 1].value.tasks|); }
        if i, j :| i < n && IsTaskAt(state, i, j, rt) {
          TaskAtPlace(state, i, j, rt);
          assert i < n - 1 ==> IsTaskOf(state, n - 1, rt);
        }
      } else if i, j :| i < n && IsTaskAt(state, i, j, rt) {
        TaskAtPlace(state, i, j, rt);
      }
    }
  }

  ghost predicate TaskPlace(state: DesiredState, i: int, j: int) {
    && 0 <= i < |state.environments| && state.environments[i].Some?
    && 0 <= j < |state.environments[i].value.tasks|
  }

  lemma TaskAtPlace(state: DesiredState, i: int, j: int, rt: RuntimeTask)
    requires IsTaskAt(state, i, j, rt)
    ensures TaskPlace(state, i, j)
  {
    hide Trim;
  }

  method RuntimeTasks(state: DesiredState) returns (tasks: seq<RuntimeTask>)
    ensures tasks == AllTasks(state)
  {
    tasks := [];
    if |state.environments| > 0 {
      for i := 0 to |state.environments|
        invariant tasks == TasksUpTo(state, i)
      {
        if state.environments[i].None? { continue; }
        var env := state.environments[i].value;
        for j := 0 to |env.tasks|
          invariant tasks == TasksUpTo(state, i) + EnvTasks(state, env, j)
        {
          if env.tasks[j].None? { continue; }
          tasks := tasks + [RuntimeTask(Trim(env.name), EnvRevision(state, env), env.tasks[j].value)];
        }
      }
    }
  }

  /** `uint16(port.Port)`. */
  function Uint16(n: nat): nat {
    n % 0x1_0000
  }

  /** The first port named `http`, else the first port, else the fallback. */
  method ServiceHTTPPort(service: Service, fallback: nat) returns (port: nat)
    ensures port == HTTPPort(service.ports, fallback)
  {
    for i := 0 to |service.ports|
      invariant FirstPort(service.ports, true) == FirstPort(service.ports[i..], true)
    {
      var p := service.ports[i];
      assert service.ports[i..][1..] == service.ports[i + 1..];
      if p.None? || p.value.number == 0 { continue; }
      if Trim(p.value.name) == DEFAULT_HTTP_PORT_NAME {
        return Uint16(p.value.number);
      }
    }
    assert service.ports[|service.ports|..] == [];
    for i := 0 to |service.ports|
      invariant FirstPort(service.ports, false) == FirstPort(service.ports[i..], false)
    {
      var p := service.ports[i];
      assert service.ports[i..][1..] == service.ports[i + 1..];
      if p.Some? && p.value.number > 0 {
        return Uint16(p.value.number);
      }
    }
    return fallback;
  }

  function FirstPort(ports: seq<Option<Port>>, named: bool): Option<nat> {
    if ports == [] then None
    else if ports[0].Some? && ports[0].value.number > 0 &&
      (named ==> Trim(ports[0].value.name) == DEFAULT_HTTP_PORT_NAME)
    then Some(Uint16(ports[0].value.number))
    else FirstPort(ports[1..], named)
  }

  function HTTPPort(ports: seq<Option<Port>>, fallback: nat): nat {
    if FirstPort(ports, true).Some? then FirstPort(ports, true).value
    else if FirstPort(ports, false).Some? then FirstPort(ports, false).value
    else fallback
  }

  ghost predicate UsablePort(port: Option<Port>, named: bool) {
    port.Some? && port.value.number != 0 && (named ==> Trim(port.value.name) == "http")
  }

  ghost predicate FirstUsable(ports: seq<Option<Port>>, named: bool, i: nat) {
    i < |ports| && UsablePort(ports[i], named) && forall j :: 0 <= j < i ==> !UsablePort(ports[j], named)
  }

  lemma {:induction false} FirstPortIs(ports: seq<Option<Port>>, named: bool)
    ensures FirstPort(ports, named).None? ==> forall j :: 0 <= j < |ports| ==> !UsablePort(ports[j], named)
    ensures FirstPort(ports, named).Some? ==> exists i: nat :: FirstUsable(ports, named, i)
    ensures forall i: nat :: FirstUsable(ports, named, i) ==>
              FirstPort(ports, named) == Some(ports[i].value.number % 65536)
  {
    hide Trim;
    if ports != [] {
      FirstPortIs(ports[1..], named);
      if UsablePort(ports[0], named) {
        assert FirstUsable(ports, named, 0);
      } else {
        forall i: nat | FirstUsable(ports, named, i) ensures i > 0 && FirstUsable(ports[1..], named, i - 1) {
          forall j | 0 <= j < i - 1 ensures !UsablePort(ports[1..][j], named) { assert ports[1..][j] == ports[j + 1]; }
        }
        if i: nat :| FirstUsable(ports[1..], named, i) {
          assert forall j :: 0 < j < i + 1 ==> ports[j] == ports[1..][j - 1];
          assert FirstUsable(ports, named, i + 1);
        }
      }
    }
  }

  /** The port is the first usable one named http; failing that the first usable one;
      failing that the fallback. */
  lemma HTTPPortIs(ports: seq<Option<Port>>, fallback: nat)
    ensures forall i: nat :: FirstUsable(ports, true, i) ==> HTTPPort(ports, fallback) == ports[i].value.number % 65536
    ensures forall i: nat :: FirstUsable(ports, false, i) && (forall p <- ports :: !UsablePort(p, true)) ==>
              HTTPPort(ports, fallback) == ports[i].value.number % 65536
    ensures (forall p <- ports :: !UsablePort(p, false)) ==> HTTPPort(ports, fallback) == fallback
  {
    hide FirstPort, UsablePort;
    FirstPortIs(ports, true);
    FirstPortIs(ports, false);
    forall i | 0 <= i < |ports| && UsablePort(ports[i], true) ensures UsablePort(ports[i], false) {
      NamedIsUsable(ports[i]);
    }
  }

  lemma NamedIsUsable(port: Option<Port>)
    requires UsablePort(port, true)
    ensures UsablePort(port, false)
  {
  }

  // ---- clusters ----

  /** `IngressTargetPort`. */
  function TargetPort(target: Option<Target>): string {
    if target.None? || Blank(target.value.port) then DEFAULT_HTTP_PORT_NAME else Trim(target.value.port)
  }

  /** `EnvoyClusterName`. */
  function EnvoyClusterName(environment: string, service: string, port: string, sanitize: string -> string): string {
    sanitize("env-" + environment + "-" + service + "-" + port)
  }

  ghost predicate Injective(sanitize: string -> string) {
    forall a, b :: sanitize(a) == sanitize(b) ==> a == b
  }

  /** As far as the sanitiser tells names apart, each part of a cluster name counts: two
      that agree in two parts agree in the third. */
  lemma ClusterNameTells(environment: string, service: string, port: string, environment': string, service': string,
                         port': string, sanitize: string -> string)
    requires Injective(sanitize)
    requires EnvoyClusterName(environment, service, port, sanitize) ==
             EnvoyClusterName(environment', service', port', sanitize)
    ensures environment == environment' && port == port' ==> service == service'
    ensures environment == environment' && service == service' ==> port == port'
    ensures service == service' && port == port' ==> environment == environment'
  {
    var a, b := "env-" + environment + "-" + service + "-" + port, "env-" + environment' + "-" + service' + "-" + port';
    assert a == b;
    var e, e', m, m' := |environment|, |environment'|, |service|, |service'|;
    assert a[4..4 + e] == environment && b[4..4 + e'] == environment';
    assert a[5 + e..5 + e + m] == service && b[5 + e'..5 + e' + m'] == service';
    assert a[6 + e + m..] == port && b[6 + e' + m'..] == port';
  }

  /** The parts are joined by the very character that names are made of, so cluster
      names can coincide even so: exactly when the joined names do. */
  lemma ClusterNamesCoincide(environment: string, service: string, environment': string, service': string, port: string,
                             sanitize: string -> string)
    requires Injective(sanitize)
    ensures EnvoyClusterName(environment, service, port, sanitize) ==
            EnvoyClusterName(environment', service', port, sanitize) <==>
            environment + "-" + service == environment' + "-" + service'
  {
    var a, b := environment + "-" + service, environment' + "-" + service';
    var rest := "-" + port;
    assert "env-" + environment + "-" + service + "-" + port == "env-" + a + rest;
    assert "env-" + environment' + "-" + service' + "-" + port == "env-" + b + rest;
    if "env-" + a + rest == "env-" + b + rest {
      assert |a| == |b|;
      assert ("env-" + a + rest)[4..4 + |a|] == a && ("env-" + b + rest)[4..4 + |b|] == b;
    }
  }

  /** Service `b-web` of environment `a` and service `web` of environment `a-b` share a
      cluster. */
  lemma DashedNamesShareCluster(port: string, sanitize: string -> string)
    ensures EnvoyClusterName("a", "b-web", port, sanitize) == EnvoyClusterName("a-b", "web", port, sanitize)
  {
    assert "env-" + "a" + "-" + "b-web" + "-" + port == "env-" + "a-b" + "-" + "web" + "-" + port;
  }

  // ---- what validation promises ----

  ghost predicate SecretsOk(env: map<string, string>, secretRefs: map<string, string>) {
    "" !in env && forall k <- secretRefs :: k != "" && secretRefs[k] != "" && k !in env
  }

  ghost predicate MountsOk(mounts: seq<Mount>) {
    forall i :: 0 <= i < |mounts| ==> mounts[i].source != "" && mounts[i].target != "" && mounts[i].target[0] == '/'
  }

  ghost predicate PortOk(port: Option<Port>, sanitize: string -> string) {
    port.Some? ==> !Blank(port.value.name) && sanitize(Trim(port.value.name)) != "" && port.value.number != 0
  }

  /** The sanitised names of the first `n` ports. */
  function PortNames(ports: seq<Option<Port>>, sanitize: string -> string, n: nat): seq<string>
    requires n <= |ports|
  {
    if n == 0 then []
    else PortNames(ports, sanitize, n - 1) +
         (if ports[n - 1].Some? then [sanitize(Trim(ports[n - 1].value.name))] else [])
  }

  function ServiceNames(services: seq<Option<Service>>, sanitize: string -> string, n: nat): seq<string>
    requires n <= |services|
  {
    if n == 0 then []
    else ServiceNames(services, sanitize, n - 1) +
         [if services[n - 1].Some? then sanitize(Trim(services[n - 1].value.name)) else ""]
  }

  function EnvironmentNames(envs: seq<Option<Environment>>, sanitize: string -> string, n: nat): seq<string>
    requires n <= |envs|
  {
    if n == 0 then []
    else EnvironmentNames(envs, sanitize, n - 1) +
         [if envs[n - 1].Some? then sanitize(Trim(envs[n - 1].value.name)) else ""]
  }

  lemma NothingDistinct()
    ensures Sorting.Distinct<string>([])
  {
  }

  lemma DistinctAppend(names: seq<string>, x: string)
    ensures Sorting.Distinct(names + [x]) <==> Sorting.Distinct(names) && x !in names
  {
    var more := names + [x];
    assert more[|names|] == x && more[..|names|] == names;
    if Sorting.Distinct(more) {
      forall i, j | 0 <= i < j < |names| ensures names[i] != names[j] {
        assert more[i] == names[i] && more[j] == names[j];
      }
      forall i | 0 <= i < |names| ensures names[i] != x { assert more[i] == names[i]; }
    }
  }

  lemma DistinctPrefix(a: seq<string>, b: seq<string>)
    requires a <= b && Sorting.Distinct(b)
    ensures Sorting.Distinct(a)
  {
  }

  lemma DistinctPair(names: seq<string>, i: nat, j: nat)
    requires Sorting.Distinct(names) && i < j < |names|
    ensures names[i] != names[j]
  {
  }

  lemma {:induction false} PortNamesPrefix(ports: seq<Option<Port>>, sanitize: string -> string, n: nat, m: nat)
    requires n <= m <= |ports|
    ensures PortNames(ports, sanitize, n) <= PortNames(ports, sanitize, m)
    decreases m
  {
    if n < m { PortNamesPrefix(ports, sanitize, n, m - 1); }
  }

  lemma {:induction false} ServiceNamesPrefix(services: seq<Option<Service>>, sanitize: string -> string, n: nat,
                                              m: nat)
    requires n <= m <= |services|
    ensures |ServiceNames(services, sanitize, m)| == m
    ensures ServiceNames(services, sanitize, n) <= ServiceNames(services, sanitize, m)
    ensures n < m ==> ServiceNames(services, sanitize, m)[n] ==
                      if services[n].Some? then sanitize(Trim(services[n].value.name)) else ""
    decreases m
  {
    if n < m { ServiceNamesPrefix(services, sanitize, n, m - 1); }
    if n == m && m > 0 { ServiceNamesPrefix(services, sanitize, n - 1, m - 1); }
  }

  lemma {:induction false} EnvironmentNamesPrefix(envs: seq<Option<Environment>>, sanitize: string -> string, n: nat,
                                                  m: nat)
    requires n <= m <= |envs|
    ensures |EnvironmentNames(envs, sanitize, m)| == m
    ensures EnvironmentNames(envs, sanitize, n) <= EnvironmentNames(envs, sanitize, m)
    ensures n < m ==> EnvironmentNames(envs, sanitize, m)[n] ==
                      if envs[n].Some? then sanitize(Trim(envs[n].value.name)) else ""
    decreases m
  {
    if n < m { EnvironmentNamesPrefix(envs, sanitize, n, m - 1); }
    if n == m && m > 0 { EnvironmentNamesPrefix(envs, sanitize, n - 1, m - 1); }
  }

  lemma ServiceNamesRejected(services: seq<Option<Service>>, sanitize: string -> string, n: nat)
    requires n <= |services| && !Sorting.Distinct(ServiceNames(services, sanitize, n))
    ensures !Sorting.Distinct(ServiceNames(services, sanitize, |services|))
  {
    ServiceNamesPrefix(services, sanitize, n, |services|);
    if Sorting.Distinct(ServiceNames(services, sanitize, |services|)) {
      DistinctPrefix(ServiceNames(services, sanitize, n), ServiceNames(services, sanitize, |services|));
    }
  }

  lemma EnvironmentNamesRejected(envs: seq<Option<Environment>>, sanitize: string -> string, n: nat)
    requires n <= |envs| && !Sorting.Distinct(EnvironmentNames(envs, sanitize, n))
    ensures !Sorting.Distinct(EnvironmentNames(envs, sanitize, |envs|))
  {
    EnvironmentNamesPrefix(envs, sanitize, n, |envs|);
    if Sorting.Distinct(EnvironmentNames(envs, sanitize, |envs|)) {
      DistinctPrefix(EnvironmentNames(envs, sanitize, n), EnvironmentNames(envs, sanitize, |envs|));
    }
  }

  /** Port names are usable and distinct, even after sanitising. */
  ghost predicate PortNamesUnique(ports: seq<Option<Port>>, sanitize: string -> string) {
    var names := PortNames(ports, sanitize, |ports|);
    "" !in names && Sorting.Distinct(names)
  }

  ghost predicate ServiceOk(service: Service, sanitize: string -> string) {
    && !Blank(service.name) && sanitize(Trim(service.name)) != ""
    && service.image != ""
    && Trim(service.kind) in ["", KIND_WEB, KIND_WORKER, KIND_ACCESSORY]
    && SecretsOk(service.env, service.secretRefs)
    && MountsOk(service.mounts)
    && (forall i :: 0 <= i < |service.ports| ==> PortOk(service.ports[i], sanitize))
    && PortNamesUnique(service.ports, sanitize)
    && (NormalizedServiceKind(service) == KIND_WEB ==>
          && HTTPPort(service.ports, 0) != 0
          && service.healthcheck.Some?
          && service.healthcheck.value.path != ""
          && service.healthcheck.value.port != 0)
  }

  ghost predicate TaskOk(task: Option<Task>) {
    task.None? ||
    (var t := task.value;
     && t.name != "" && t.image != ""
     && (t.entrypoint != [] || t.command != [])
     && SecretsOk(t.env, t.secretRefs)
     && MountsOk(t.mounts))
  }

  ghost predicate ServicesOk(services: seq<Option<Service>>, sanitize: string -> string) {
    && (forall i :: 0 <= i < |services| ==> services[i].Some? && ServiceOk(services[i].value, sanitize))
    && Sorting.Distinct(ServiceNames(services, sanitize, |services|))
  }

  ghost predicate EnvironmentOk(env: Environment, sanitize: string -> string) {
    && !Blank(env.name) && sanitize(Trim(env.name)) != ""
    && EnvironmentBodyOk(env, sanitize)
  }

  ghost predicate EnvironmentBodyOk(env: Environment, sanitize: string -> string) {
    && ServicesOk(env.services, sanitize)
    && (forall i :: 0 <= i < |env.tasks| ==> TaskOk(env.tasks[i]))
  }

  ghost predicate EnvironmentsOk(envs: seq<Option<Environment>>, sanitize: string -> string) {
    && (forall i :: 0 <= i < |envs| ==> envs[i].Some? && EnvironmentOk(envs[i].value, sanitize))
    && Sorting.Distinct(EnvironmentNames(envs, sanitize, |envs|))
  }

  // ---- validation ----

  lemma PortNamesRejected(ports: seq<Option<Port>>, sanitize: string -> string, n: nat, x: string)
    requires n < |ports| && PortNames(ports, sanitize, n + 1) == PortNames(ports, sanitize, n) + [x]
    requires x == "" || x in PortNames(ports, sanitize, n)
    ensures !PortNamesUnique(ports, sanitize)
  {
    var names := PortNames(ports, sanitize, |ports|);
    PortNamesPrefix(ports, sanitize, n + 1, |ports|);
    var a := PortNames(ports, sanitize, n + 1);
    assert a[|a| - 1] == x && names[|a| - 1] == x;
    if Sorting.Distinct(names) {
      DistinctPrefix(a, names);
      DistinctAppend(PortNames(ports, sanitize, n), x);
    }
  }

  ghost predicate IsPortName(port: Option<Port>, sanitize: string -> string, x: string) {
    port.Some? && sanitize(Trim(port.value.name)) == x
  }

  /** In the ports' own fields: the names are those of the ports, and distinct exactly if
      no two ports have the same. */
  lemma {:induction false} PortNamesAre(ports: seq<Option<Port>>, sanitize: string -> string, n: nat)
    requires n <= |ports|
    ensures forall x :: x in PortNames(ports, sanitize, n) <==>
                        exists i :: 0 <= i < n && IsPortName(ports[i], sanitize, x)
    ensures Sorting.Distinct(PortNames(ports, sanitize, n)) <==>
            forall i, j, x :: 0 <= i < j < n && IsPortName(ports[i], sanitize, x) ==> !IsPortName(ports[j], sanitize, x)
  {
    hide Trim, Sorting.Distinct;
    NothingDistinct();
    if n > 0 {
      PortNamesAre(ports, sanitize, n - 1);
      var before := PortNames(ports, sanitize, n - 1);
      if ports[n - 1].Some? {
        var name := sanitize(Trim(ports[n - 1].value.name));
        DistinctAppend(before, name);
        assert IsPortName(ports[n - 1], sanitize, name);
        if name in before {
          var i :| 0 <= i < n - 1 && IsPortName(ports[i], sanitize, name);
          assert !Sorting.Distinct(before + [name]);
        }
      } else {
        assert PortNames(ports, sanitize, n) == before;
      }
    }
  }

  method ValidateUniquePortNames(ports: seq<Option<Port>>, sanitize: string -> string) returns (ok: bool)
    ensures ok <==> PortNamesUnique(ports, sanitize)
  {
    hide Trim, Sorting.Distinct;
    NothingDistinct();
    var seen: set<string>, seenSanitized: set<string> := {}, {};
    for i := 0 to |ports|
      invariant "" !in seenSanitized
      invariant Sorting.Distinct(PortNames(ports, sanitize, i))
      invariant forall x :: x in seenSanitized <==> x in PortNames(ports, sanitize, i)
      invariant forall x :: x in seen ==> sanitize(x) in seenSanitized
    {
      ghost var before := PortNames(ports, sanitize, i);
      if ports[i].None? {
        assert PortNames(ports, sanitize, i + 1) == before;
        continue;
      }
      var name := Trim(ports[i].value.name);
      var sanitizedName := sanitize(name);
      DistinctAppend(before, sanitizedName);
      assert PortNames(ports, sanitize, i + 1) == before + [sanitizedName];
      if name in seen || sanitizedName == "" || sanitizedName in seenSanitized {
        PortNamesRejected(ports, sanitize, i, sanitizedName);
        return false;
      }
      seen, seenSanitized := seen + {name}, seenSanitized + {sanitizedName};
    }
    return true;
  }

  /** The environment and secret checks that services and tasks share. */
  method ValidateSecrets(env: map<string, string>, secretRefs: map<string, string>) returns (ok: bool)
    ensures ok <==> SecretsOk(env, secretRefs)
  {
    if "" in env { return false; }
    var left := secretRefs.Keys;
    while left != {}
      invariant left <= secretRefs.Keys
      invariant forall k <- secretRefs :: k !in left ==> k != "" && secretRefs[k] != "" && k !in env
      decreases left
    {
      var k :| k in left;
      left := left - {k};
      if k == "" || secretRefs[k] == "" || k in env { return false; }
    }
    return true;
  }

  /** ... and those of the mounts. */
  method ValidateMounts(mounts: seq<Mount>) returns (ok: bool)
    ensures ok <==> MountsOk(mounts)
  {
    for i := 0 to |mounts|
      invariant MountsOk(mounts[..i])
    {
      if mounts[i].source == "" || mounts[i].target == "" { return false; }
      if mounts[i].target[0] != '/' { return false; }
    }
    assert mounts[..|mounts|] == mounts;
    return true;
  }

  method ValidateTask(task: Option<Task>) returns (ok: bool)
    ensures ok <==> TaskOk(task)
  {
    if task.None? { return true; }
    if task.value.name == "" || task.value.image == "" { return false; }
    if |task.value.entrypoint| == 0 && |task.value.command| == 0 { return false; }
    ok := ValidateSecrets(task.value.env, task.value.secretRefs);
    if ok { ok := ValidateMounts(task.value.mounts); }
  }

  method ValidateService(service: Service, sanitize: string -> string) returns (ok: bool)
    ensures ok <==> ServiceOk(service, sanitize)
  {
    if Blank(service.name) || sanitize(Trim(service.name)) == "" || service.image == "" { return false; }
    if Trim(service.kind) !in ["", KIND_WEB, KIND_WORKER, KIND_ACCESSORY] { return false; }
    var secretsOk := ValidateSecrets(service.env, service.secretRefs);
    if !secretsOk { return false; }
    var mountsOk := ValidateMounts(service.mounts);
    if !mountsOk { return false; }
    for i := 0 to |service.ports|
      invariant forall j :: 0 <= j < i ==> PortOk(service.ports[j], sanitize)
    {
      if service.ports[i].None? { continue; }
      var port := service.ports[i].value;
      var name := Trim(port.name);
      if name == "" || sanitize(name) == "" || port.number == 0 { return false; }
    }
    var unique := ValidateUniquePortNames(service.ports, sanitize);
    if !unique { return false; }
    if NormalizedServiceKind(service) == KIND_WEB {
      var port := ServiceHTTPPort(service, 0);
      if port == 0 || service.healthcheck.None? { return false; }
      if service.healthcheck.value.path == "" || service.healthcheck.value.port == 0 { return false; }
    }
    return true;
  }

  method ValidateServices(services: seq<Option<Service>>, sanitize: string -> string) returns (ok: bool)
    ensures ok <==> ServicesOk(services, sanitize)
  {
    hide ServiceOk, Trim, Sorting.Distinct;
    NothingDistinct();
    var seen: set<string>, seenSanitized: set<string> := {}, {};
    for i := 0 to |services|
      invariant forall j :: 0 <= j < i ==> services[j].Some? && ServiceOk(services[j].value, sanitize)
      invariant Sorting.Distinct(ServiceNames(services, sanitize, i))
      invariant forall x :: x in seenSanitized <==> x in ServiceNames(services, sanitize, i)
      invariant forall x :: x in seen ==> sanitize(x) in seenSanitized
    {
      if services[i].None? { return false; }
      var fieldsOk := ValidateService(services[i].value, sanitize);
      if !fieldsOk { return false; }
      var name := Trim(services[i].value.name);
      DistinctAppend(ServiceNames(services, sanitize, i), sanitize(name));
      if name in seen || sanitize(name) in seenSanitized {
        ServiceNamesRejected(services, sanitize, i + 1);
        return false;
      }
      seen, seenSanitized := seen + {name}, seenSanitized + {sanitize(name)};
    }
    return true;
  }

  method ValidateEnvironments(state: DesiredState, sanitize: string -> string) returns (ok: bool)
    ensures ok <==> EnvironmentsOk(state.environments, sanitize)
  {
    hide EnvironmentBodyOk, Trim, Sorting.Distinct;
    var envs := state.environments;
    NothingDistinct();
    var seen: set<string>, seenSanitized: set<string> := {}, {};
    for i := 0 to |envs|
      invariant forall j :: 0 <= j < i ==> envs[j].Some? && EnvironmentOk(envs[j].value, sanitize)
      invariant Sorting.Distinct(EnvironmentNames(envs, sanitize, i))
      invariant forall x :: x in seenSanitized <==> x in EnvironmentNames(envs, sanitize, i)
      invariant forall x :: x in seen ==> sanitize(x) in seenSanitized
    {
      if envs[i].None? { return false; }
      var env := envs[i].value;
      var name := Trim(env.name);
      if name == "" || sanitize(name) == "" { return false; }
      DistinctAppend(EnvironmentNames(envs, sanitize, i), sanitize(name));
      if name in seen || sanitize(name) in seenSanitized {
        EnvironmentNamesRejected(envs, sanitize, i + 1);
        return false;
      }
      seen, seenSanitized := seen + {name}, seenSanitized + {sanitize(name)};
      var bodyOk := ValidateEnvironmentBody(env, sanitize);
      if !bodyOk { return false; }
    }
    return true;
  }

  method ValidateEnvironmentBody(env: Environment, sanitize: string -> string) returns (ok: bool)
    ensures ok <==> EnvironmentBodyOk(env, sanitize)
  {
    hide ServicesOk, TaskOk;
    var servicesOk := ValidateServices(env.services, sanitize);
    if !servicesOk { return false; }
    for i := 0 to |env.tasks|
      invariant forall j :: 0 <= j < i ==> TaskOk(env.tasks[j])
    {
      var taskOk := ValidateTask(env.tasks[i]);
      if !taskOk { return false; }
    }
    return true;
  }

  function IngressHosts(hosts: seq<string>): seq<string> {
    if hosts == [] then []
    else (if Blank(hosts[0]) then [] else [Trim(hosts[0])]) + IngressHosts(hosts[1..])
  }

  /** The hosts are the trimmed ones that are not blank. */
  lemma {:induction false} IngressHostsAre(hosts: seq<string>)
    ensures forall h :: h in IngressHosts(hosts) <==> h != "" && exists v <- hosts :: Trim(v) == h
  {
    hide Trim;
    if hosts != [] {
      var rest := hosts[1..];
      IngressHostsAre(rest);
      assert forall v :: v in hosts <==> v == hosts[0] || v in rest;
      forall h ensures h in IngressHosts(hosts) <==> h != "" && exists v <- hosts :: Trim(v) == h {
        if v :| v in hosts && Trim(v) == h { assert v == hosts[0] || v in rest; }
      }
    }
  }

  /** A public ingress, as one is unless it says otherwise. */
  ghost predicate IsPublic(ingress: Option<Ingress>) {
    ingress.Some? && Trim(ingress.value.mode) in ["", "public"]
  }

  /** What the ingress says of TLS, if anything. */
  ghost function TLSWord(ingress: Ingress): string {
    if ingress.tlsMode.Some? then Trim(ingress.tlsMode.value) else ""
  }

  /** The match of a route with the blank prefix read as `/`. */
  function RouteHost(route: Route): string {
    if route.match_.Some? then Trim(route.match_.value.hostname) else ""
  }

  function RoutePrefix(route: Route): string {
    if route.match_.Some? && !Blank(route.match_.value.pathPrefix) then Trim(route.match_.value.pathPrefix) else "/"
  }

  function RouteKey(route: Route): string {
    RouteHost(route) + ['\0'] + RoutePrefix(route)
  }

  ghost predicate ServiceHasPort(service: Service, name: string) {
    exists i :: 0 <= i < |service.ports| && service.ports[i].Some? &&
      Trim(service.ports[i].value.name) == name && service.ports[i].value.number > 0
  }

  ghost predicate IsTarget(rs: RuntimeService, target: Target) {
    && rs.environmentName == Trim(target.environment)
    && rs.serviceName == Trim(target.service)
    && ServiceHasPort(rs.service, Trim(target.port))
  }

  ghost predicate TargetOk(services: seq<RuntimeService>, target: Target) {
    && !Blank(target.environment) && !Blank(target.service) && !Blank(target.port)
    && exists rs <- services :: IsTarget(rs, target)
  }

  /** One acceptable route: it matches a listed host, its prefix is absolute and
      its target is an existing port of an existing service. */
  ghost predicate RouteOk(route: Option<Route>, hosts: seq<string>, services: seq<RuntimeService>) {
    && route.Some? && route.value.match_.Some? && route.value.target.Some?
    && RouteHost(route.value) != "" && RouteHost(route.value) in hosts
    && HasPrefix(RoutePrefix(route.value), "/")
    && TargetOk(services, route.value.target.value)
  }

  function RouteKeys(routes: seq<Option<Route>>, n: nat): seq<string>
    requires n <= |routes|
  {
    if n == 0 then []
    else RouteKeys(routes, n - 1) + [if routes[n - 1].Some? then RouteKey(routes[n - 1].value) else ""]
  }

  lemma {:induction false} RouteKeysPrefix(routes: seq<Option<Route>>, n: nat, m: nat)
    requires n <= m <= |routes|
    ensures |RouteKeys(routes, m)| == m && RouteKeys(routes, n) <= RouteKeys(routes, m)
    ensures n < m && routes[n].Some? ==> RouteKeys(routes, m)[n] == RouteKey(routes[n].value)
    decreases m
  {
    if n < m { RouteKeysPrefix(routes, n, m - 1); }
    if n == m && m > 0 { RouteKeysPrefix(routes, n - 1, m - 1); }
  }

  lemma RouteKeysRejected(routes: seq<Option<Route>>, n: nat)
    requires n <= |routes| && !Sorting.Distinct(RouteKeys(routes, n))
    ensures !Sorting.Distinct(RouteKeys(routes, |routes|))
  {
    RouteKeysPrefix(routes, n, |routes|);
    if Sorting.Distinct(RouteKeys(routes, |routes|)) {
      DistinctPrefix(RouteKeys(routes, n), RouteKeys(routes, |routes|));
    }
  }

  ghost predicate RoutesOk(routes: seq<Option<Route>>, hosts: seq<string>, services: seq<RuntimeService>) {
    && (forall i :: 0 <= i < |routes| ==> RouteOk(routes[i], hosts, services))
    && Sorting.Distinct(RouteKeys(routes, |routes|))
  }

  /** Both names are trimmed and not blank. */
  ghost predicate NamesOf(rs: RuntimeService) {
    Trimmed(rs.environmentName) && rs.environmentName != "" && Trimmed(rs.serviceName) && rs.serviceName != ""
  }

  ghost predicate NamesPresent(services: seq<RuntimeService>) {
    forall i :: 0 <= i < |services| ==> NamesOf(services[i])
  }

  ghost predicate KeysDistinct(services: seq<RuntimeService>) {
    forall i, j :: 0 <= i < j < |services| ==>
      ServiceKey(services[i].environmentName, services[i].serviceName) !=
      ServiceKey(services[j].environmentName, services[j].serviceName)
  }

  /** `targets` maps the key of every service to that service. */
  ghost predicate Indexes(targets: map<string, Service>, services: seq<RuntimeService>, n: nat)
    requires n <= |services|
  {
    && (forall j :: 0 <= j < n ==>
        TargetKey(services[j]) in targets &&
        targets[TargetKey(services[j])] == services[j].service)
    && (forall key :: key in targets ==> exists j :: 0 <= j < n && key == TargetKey(services[j]))
  }

  function TargetKey(rs: RuntimeService): string {
    ScopedKeyOf([rs.environmentName, rs.serviceName])
  }

  method IndexServices(services: seq<RuntimeService>) returns (targets: map<string, Service>)
    requires NamesPresent(services) && KeysDistinct(services)
    ensures Indexes(targets, services, |services|)
  {
    hide ScopedKeyOf, Trim, ServiceKey;
    targets := map[];
    for i := 0 to |services|
      invariant Indexes(targets, services, i)
    {
      var key := ScopedKey([services[i].environmentName, services[i].serviceName]);
      forall j | 0 <= j < i ensures key != TargetKey(services[j]) {
        SameTargetKey(services[i], services[j]);
      }
      targets := targets[key := services[i].service];
    }
  }

  lemma SameTargetKey(a: RuntimeService, b: RuntimeService)
    requires NamesOf(a) && NamesOf(b)
    ensures TargetKey(a) == TargetKey(b) <==> a.environmentName == b.environmentName && a.serviceName == b.serviceName
    ensures TargetKey(a) == TargetKey(b) <==>
            ServiceKey(a.environmentName, a.serviceName) == ServiceKey(b.environmentName, b.serviceName)
  {
    PairKeyInjective([a.environmentName, a.serviceName], [b.environmentName, b.serviceName]);
    ServiceKeyInjective(a.environmentName, a.serviceName, b.environmentName, b.serviceName);
  }

  method ValidateIngressRoutes(state: DesiredState, ingress: Ingress, ghost sanitize: string -> string)
    returns (ok: bool)
    requires EnvironmentsOk(state.environments, sanitize)
    ensures ok <==> RoutesOk(ingress.routes, IngressHosts(ingress.hosts), AllServices(state))
  {
    hide RouteOk, RouteKey, EnvironmentsOk, AllServices, Sorting.Distinct;
    var hosts := IngressHosts(ingress.hosts);
    var services := RuntimeServices(state);
    ValidatedServices(state, sanitize);
    var targets := IndexServices(services);
    NothingDistinct();
    var seen: set<string> := {};
    for i := 0 to |ingress.routes|
      invariant forall j :: 0 <= j < i ==> RouteOk(ingress.routes[j], hosts, services)
      invariant Sorting.Distinct(RouteKeys(ingress.routes, i))
      invariant forall x :: x in seen <==> x in RouteKeys(ingress.routes, i)
    {
      var routeOk := ValidateRoute(ingress.routes[i], hosts, services, targets);
      if !routeOk { return false; }
      var key := RouteKey(ingress.routes[i].value);
      DistinctAppend(RouteKeys(ingress.routes, i), key);
      if key in seen {
        RouteKeysRejected(ingress.routes, i + 1);
        return false;
      }
      seen := seen + {key};
    }
    return true;
  }

  /** The checks on one route, in the order of the loop body. */
  method ValidateRoute(route: Option<Route>, hosts: seq<string>, services: seq<RuntimeService>,
                       targets: map<string, Service>)
    returns (ok: bool)
    requires NamesPresent(services) && Indexes(targets, services, |services|)
    ensures ok <==> RouteOk(route, hosts, services)
    ensures ok ==> route.Some?
  {
    if route.None? || route.value.match_.None? { return false; }
    if RouteHost(route.value) == "" || RouteHost(route.value) !in hosts { return false; }
    if !HasPrefix(RoutePrefix(route.value), "/") || route.value.target.None? { return false; }
    var target := route.value.target.value;
    if Blank(target.environment) || Blank(target.service) { return false; }
    var key := ScopedKey([Trim(target.environment), Trim(target.service)]);
    TargetLookup(services, target, targets);
    if key !in targets || Blank(target.port) { return false; }
    ok := HasPort(targets[key], Trim(target.port));
  }

  /** `serviceHasPort`. */
  method HasPort(service: Service, name: string) returns (r: bool)
    ensures r <==> ServiceHasPort(service, name)
  {
    hide Trim;
    for i := 0 to |service.ports|
      invariant forall j :: 0 <= j < i && service.ports[j].Some? ==>
                  Trim(service.ports[j].value.name) != name || service.ports[j].value.number <= 0
    {
      if service.ports[i].None? { continue; }
      if Trim(service.ports[i].value.name) == name && service.ports[i].value.number > 0 { return true; }
    }
    return false;
  }

  /** What makes a route acceptable, on its own fields: its host is one of the listed
      ones, its prefix is blank or absolute, and its target is a port that exists of a
      service that exists. */
  lemma RouteAccepted(route: Option<Route>, hosts: seq<string>, services: seq<RuntimeService>)
    ensures RouteOk(route, hosts, services) <==>
            && route.Some? && route.value.match_.Some? && route.value.target.Some?
            && var m, t := route.value.match_.value, route.value.target.value;
            && Trim(m.hostname) != "" && Trim(m.hostname) in hosts
            && (Trim(m.pathPrefix) == "" || Trim(m.pathPrefix)[0] == '/')
            && Trim(t.environment) != "" && Trim(t.service) != "" && Trim(t.port) != ""
            && exists rs, p :: rs in services && rs.environmentName == Trim(t.environment) &&
                               rs.serviceName == Trim(t.service) && Some(p) in rs.service.ports &&
                               Trim(p.name) == Trim(t.port) && p.number > 0
  {
    hide Trim;
    if route.Some? && route.value.target.Some? {
      var t := route.value.target.value;
      forall rs ensures IsTarget(rs, t) <==>
        rs.environmentName == Trim(t.environment) && rs.serviceName == Trim(t.service) &&
        exists p :: Some(p) in rs.service.ports && Trim(p.name) == Trim(t.port) && p.number > 0
      {
        HasPortIs(rs.service, Trim(t.port));
      }
    }
  }

  lemma HasPortIs(service: Service, name: string)
    ensures ServiceHasPort(service, name) <==>
            exists p :: Some(p) in service.ports && Trim(p.name) == name && p.number > 0
  {
    hide Trim;
    if ServiceHasPort(service, name) {
      var i :| 0 <= i < |service.ports| && service.ports[i].Some? &&
        Trim(service.ports[i].value.name) == name && service.ports[i].value.number > 0;
      assert Some(service.ports[i].value) in service.ports;
    }
    if p :| Some(p) in service.ports && Trim(p.name) == name && p.number > 0 {
      var i :| 0 <= i < |service.ports| && service.ports[i] == Some(p);
    }
  }

  /** Looking a target up by key finds exactly the service with its names. */
  lemma TargetLookup(services: seq<RuntimeService>, target: Target, targets: map<string, Service>)
    requires !Blank(target.environment) && !Blank(target.service)
    requires NamesPresent(services) && Indexes(targets, services, |services|)
    ensures
      var key := ScopedKeyOf([Trim(target.environment), Trim(target.service)]);
      (key in targets && ServiceHasPort(targets[key], Trim(target.port))) <==>
      exists rs <- services :: IsTarget(rs, target)
  {
    var wanted := RuntimeService(Trim(target.environment), "", Trim(target.service), "",
                                 Service("", "", "", map[], map[], [], [], None));
    TrimTrims(target.environment);
    TrimTrims(target.service);
    var key := TargetKey(wanted);
    if key in targets && ServiceHasPort(targets[key], Trim(target.port)) {
      var j :| 0 <= j < |services| && key == TargetKey(services[j]);
      SameTargetKey(wanted, services[j]);
      assert IsTarget(services[j], target);
    }
    if rs :| rs in services && IsTarget(rs, target) {
      var j :| 0 <= j < |services| && services[j] == rs;
      SameTargetKey(wanted, services[j]);
    }
  }

  ghost predicate HasWebService(services: seq<RuntimeService>) {
    exists rs <- services :: rs.serviceKind == KIND_WEB
  }

  ghost predicate IngressOk(state: DesiredState, ingress: Ingress) {
    && IngressHosts(ingress.hosts) != []
    && (if ingress.routes != [] then RoutesOk(ingress.routes, IngressHosts(ingress.hosts), AllServices(state))
        else HasWebService(AllServices(state)))
    && (Blank(ingress.mode) || Trim(ingress.mode) == MODE_PUBLIC)
    && (ingress.tlsMode.Some? ==> Trim(ingress.tlsMode.value) in ["", "auto", "manual", "off"])
  }

  /** What an accepted desired state guarantees to the rest of the agent. */
  ghost predicate StateOk(state: DesiredState, sanitize: string -> string) {
    && state.revision != ""
    && state.schemaVersion == CURRENT_SCHEMA_VERSION
    && EnvironmentsOk(state.environments, sanitize)
    && (state.ingress.Some? ==> IngressOk(state, state.ingress.value))
  }

  /** `hasWebService`. */
  method FindWebService(services: seq<RuntimeService>) returns (r: bool)
    ensures r <==> HasWebService(services)
  {
    for i := 0 to |services|
      invariant forall j :: 0 <= j < i ==> services[j].serviceKind != KIND_WEB
    {
      if services[i].serviceKind == KIND_WEB { return true; }
    }
    return false;
  }

  method ValidateIngress(state: DesiredState, ingress: Ingress, ghost sanitize: string -> string) returns (ok: bool)
    requires EnvironmentsOk(state.environments, sanitize)
    ensures ok <==> IngressOk(state, ingress)
  {
    if |IngressHosts(ingress.hosts)| == 0 { return false; }
    if |ingress.routes| > 0 {
      var routesOk := ValidateIngressRoutes(state, ingress, sanitize);
      if !routesOk { return false; }
    } else {
      var services := RuntimeServices(state);
      var web := FindWebService(services);
      if !web { return false; }
    }
    var mode := if Blank(ingress.mode) then MODE_PUBLIC else Trim(ingress.mode);
    if mode != MODE_PUBLIC { return false; }
    return ingress.tlsMode.None? || Trim(ingress.tlsMode.value) in ["", "auto", "manual", "off"];
  }

  method Validate(state: Option<DesiredState>, sanitize: string -> string) returns (ok: bool)
    ensures ok <==> state.Some? && StateOk(state.value, sanitize)
  {
    if state.None? { return false; }
    if state.value.revision == "" || state.value.schemaVersion != CURRENT_SCHEMA_VERSION { return false; }
    var envsOk := ValidateEnvironments(state.value, sanitize);
    if !envsOk { return false; }
    if state.value.ingress.Some? {
      var ingressOk := ValidateIngress(state.value, state.value.ingress.value, sanitize);
      if !ingressOk { return false; }
    }
    return true;
  }

  // ---- consequences of validation ----

  /** The part of validation that the service keys rest on. */
  ghost predicate NamesValidated(envs: seq<Option<Environment>>) {
    && (forall i :: 0 <= i < |envs| ==>
        envs[i].Some? && !Blank(envs[i].value.name) &&
        ServiceNamesValidated(envs[i].value.services))
    && (forall i, j :: 0 <= i < j < |envs| ==> Trim(envs[i].value.name) != Trim(envs[j].value.name))
  }

  ghost predicate ServiceNamesValidated(services: seq<Option<Service>>) {
    && (forall i :: 0 <= i < |services| ==> services[i].Some? && !Blank(services[i].value.name))
    && (forall i, j :: 0 <= i < j < |services| ==> Trim(services[i].value.name) != Trim(services[j].value.name))
  }

  lemma ServicesOkNames(services: seq<Option<Service>>, sanitize: string -> string)
    requires ServicesOk(services, sanitize)
    ensures ServiceNamesValidated(services)
  {
    forall i | 0 <= i < |services| ensures services[i].Some? && !Blank(services[i].value.name) {
      assert ServiceOk(services[i].value, sanitize);
    }
    forall i, j | 0 <= i < j < |services| ensures Trim(services[i].value.name) != Trim(services[j].value.name) {
      ServiceNamesPrefix(services, sanitize, i, |services|);
      ServiceNamesPrefix(services, sanitize, j, |services|);
      DistinctPair(ServiceNames(services, sanitize, |services|), i, j);
    }
  }

  lemma EnvironmentsOkNames(envs: seq<Option<Environment>>, sanitize: string -> string)
    requires EnvironmentsOk(envs, sanitize)
    ensures NamesValidated(envs)
  {
    forall i | 0 <= i < |envs|
      ensures envs[i].Some? && !Blank(envs[i].value.name) && ServiceNamesValidated(envs[i].value.services)
    {
      assert EnvironmentOk(envs[i].value, sanitize);
      ServicesOkNames(envs[i].value.services, sanitize);
    }
    forall i, j | 0 <= i < j < |envs| ensures Trim(envs[i].value.name) != Trim(envs[j].value.name) {
      EnvironmentNamesPrefix(envs, sanitize, i, |envs|);
      EnvironmentNamesPrefix(envs, sanitize, j, |envs|);
      DistinctPair(EnvironmentNames(envs, sanitize, |envs|), i, j);
    }
  }

  /** The services of one validated environment: their names are present and
      pairwise distinct, and they all carry the environment's name. */
  lemma {:induction false} EnvServicesDistinct(state: DesiredState, env: Environment, n: nat)
    requires !Blank(env.name) && ServiceNamesValidated(env.services) && n <= |env.services|
    ensures |EnvServices(state, env, n)| == n
    ensures forall k :: 0 <= k < n ==>
      EnvServices(state, env, n)[k] == RuntimeServiceOf(state, env, env.services[k].value)
  {
    if n > 0 {
      EnvServicesDistinct(state, env, n - 1);
    }
  }

  /** Every service of the first `n` environments belongs to one of them. */
  ghost predicate OwnedBy(state: DesiredState, services: seq<RuntimeService>, n: nat)
    requires n <= |state.environments|
  {
    forall k :: 0 <= k < |services| ==>
      exists i :: 0 <= i < n && state.environments[i].Some? &&
        services[k].environmentName == Trim(state.environments[i].value.name)
  }

  ghost predicate PairsDistinct(services: seq<RuntimeService>) {
    forall i, j :: 0 <= i < j < |services| ==>
      services[i].environmentName != services[j].environmentName || services[i].serviceName != services[j].serviceName
  }

  lemma {:induction false} ServicesUpToDistinct(state: DesiredState, n: nat)
    requires NamesValidated(state.environments) && n <= |state.environments|
    ensures NamesPresent(ServicesUpTo(state, n)) && PairsDistinct(ServicesUpTo(state, n))
    ensures OwnedBy(state, ServicesUpTo(state, n), n)
  {
    hide Trim, EnvRevision, NormalizedServiceKind, EnvServices;
    if n > 0 {
      ServicesUpToDistinct(state, n - 1);
      var env := state.environments[n - 1].value;
      var front, last := ServicesUpTo(state, n - 1), EnvServices(state, env, |env.services|);
      EnvServicesDistinct(state, env, |env.services|);
      forall l | 0 <= l < |last|
        ensures NamesOf(last[l]) && last[l].environmentName == Trim(env.name)
        ensures last[l].serviceName == Trim(env.services[l].value.name)
      {
        assert last[l] == RuntimeServiceOf(state, env, env.services[l].value);
        TrimTrims(env.name);
        TrimTrims(env.services[l].value.name);
      }
      assert PairsDistinct(last);
      forall k, l | 0 <= k < |front| && 0 <= l < |last|
        ensures front[k].environmentName != last[l].environmentName
      {
        var i :| 0 <= i < n - 1 && state.environments[i].Some? &&
          front[k].environmentName == Trim(state.environments[i].value.name);
        assert Trim(state.environments[i].value.name) != Trim(state.environments[n - 1].value.name);
      }
      JoinDistinct(front, last);
      var services := front + last;
      forall k | 0 <= k < |services|
        ensures exists i :: (0 <= i < n && state.environments[i].Some? &&
                             services[k].environmentName == Trim(state.environments[i].value.name))
      {
        if k >= |front| {
          assert services[k] == last[k - |front|];
          assert state.environments[n - 1].Some?;
        } else {
          assert services[k] == front[k];
        }
      }
    }
  }

  lemma JoinDistinct(a: seq<RuntimeService>, b: seq<RuntimeService>)
    requires PairsDistinct(a) && PairsDistinct(b) && NamesPresent(a) && NamesPresent(b)
    requires forall k, l :: 0 <= k < |a| && 0 <= l < |b| ==> a[k].environmentName != b[l].environmentName
    ensures PairsDistinct(a + b) && NamesPresent(a + b)
  {
  }

  /** In a validated state every runtime service has trimmed, non-blank names
      and no two share a key, so the keyed map of desired services has exactly
      one entry per service. */
  lemma ValidatedServices(state: DesiredState, sanitize: string -> string)
    requires EnvironmentsOk(state.environments, sanitize)
    ensures NamesPresent(AllServices(state)) && KeysDistinct(AllServices(state))
  {
    EnvironmentsOkNames(state.environments, sanitize);
    ServicesUpToDistinct(state, |state.environments|);
    var services := AllServices(state);
    forall i, j | 0 <= i < j < |services|
      ensures ServiceKey(services[i].environmentName, services[i].serviceName) !=
              ServiceKey(services[j].environmentName, services[j].serviceName)
    {
      SameTargetKey(services[i], services[j]);
    }
  }

  /** Accepted routes never repeat a host and prefix, a blank prefix being `/`. */
  lemma AcceptedRoutesDistinct(routes: seq<Option<Route>>, hosts: seq<string>, services: seq<RuntimeService>, i: nat,
                               j: nat)
    requires RoutesOk(routes, hosts, services) && i < j < |routes|
    ensures routes[i].Some? && routes[i].value.match_.Some? && routes[j].Some? && routes[j].value.match_.Some?
    ensures
      var a, b := routes[i].value.match_.value, routes[j].value.match_.value;
      || Trim(a.hostname) != Trim(b.hostname)
      || (if Trim(a.pathPrefix) == "" then "/" else Trim(a.pathPrefix)) !=
         (if Trim(b.pathPrefix) == "" then "/" else Trim(b.pathPrefix))
  {
    hide Trim;
    RouteKeysPrefix(routes, i, |routes|);
    RouteKeysPrefix(routes, j, |routes|);
    DistinctPair(RouteKeys(routes, |routes|), i, j);
    assert RouteOk(routes[i], hosts, services) && RouteOk(routes[j], hosts, services);
  }

  /** Both routes take requests to the same host by the same prefix. */
  ghost predicate SameMatch(a: Route, b: Route) {
    && a.match_.Some? && b.match_.Some?
    && var m, n := a.match_.value, b.match_.value;
    && Trim(m.hostname) == Trim(n.hostname)
    && (if Trim(m.pathPrefix) == "" then "/" else Trim(m.pathPrefix)) ==
       (if Trim(n.pathPrefix) == "" then "/" else Trim(n.pathPrefix))
  }

  lemma RouteKeysTell(a: Route, b: Route)
    requires a.match_.Some? && b.match_.Some?
    requires '\0' !in a.match_.value.hostname && '\0' !in b.match_.value.hostname
    ensures RouteKey(a) == RouteKey(b) <==> SameMatch(a, b)
  {
    hide Trim;
    TrimWithin(a.match_.value.hostname);
    TrimWithin(b.match_.value.hostname);
    KeyParts(RouteHost(a), RoutePrefix(a), RouteHost(b), RoutePrefix(b));
  }

  lemma KeyParts(a: string, x: string, b: string, y: string)
    requires '\0' !in a && '\0' !in b
    ensures a + ['\0'] + x == b + ['\0'] + y <==> a == b && x == y
  {
    var s, t := a + ['\0'] + x, b + ['\0'] + y;
    assert s[|a|] == '\0' && forall k :: 0 <= k < |a| ==> s[k] == a[k] && a[k] != '\0';
    assert t[|b|] == '\0' && forall k :: 0 <= k < |b| ==> t[k] == b[k] && b[k] != '\0';
    if s == t {
      assert |a| == |b|;
      assert s[..|a|] == a && t[..|b|] == b && s[|a| + 1..] == x && t[|b| + 1..] == y;
    }
  }

  /** With a NUL two routes that match differently have one key. */
  lemma NulJoinsRoutes(target: Option<Target>)
    ensures
      var a := Route(Some(RouteMatch("a", "/b\0/c")), target);
      var b := Route(Some(RouteMatch("a\0/b", "/c")), target);
      RouteKey(a) == RouteKey(b) && !SameMatch(a, b)
  {
    hide Trim, IsSpace;
    VisibleAscii('a');
    VisibleAscii('b');
    VisibleAscii('c');
    VisibleAscii('/');
    TrimmedEnds("a");
    TrimmedEnds("/b\0/c");
    TrimmedEnds("a\0/b");
    TrimmedEnds("/c");
    assert "a" + ['\0'] + "/b\0/c" == "a\0/b" + ['\0'] + "/c";
    assert |"a"| != |"a\0/b"|;
  }

  /** As long as no host has a NUL, which is what separates the parts of their keys,
      routes are accepted exactly if each is acceptable and no two match the same. */
  lemma RoutesAccepted(routes: seq<Option<Route>>, hosts: seq<string>, services: seq<RuntimeService>)
    requires forall r <- routes :: r.Some? && r.value.match_.Some? ==> '\0' !in r.value.match_.value.hostname
    ensures RoutesOk(routes, hosts, services) <==>
            && (forall i :: 0 <= i < |routes| ==> RouteOk(routes[i], hosts, services))
            && forall i, j :: 0 <= i < j < |routes| && routes[i].Some? && routes[j].Some? ==>
                 !SameMatch(routes[i].value, routes[j].value)
  {
    hide Trim, RouteKey, RouteKeys, SameMatch;
    var keys := RouteKeys(routes, |routes|);
    if forall i :: 0 <= i < |routes| ==> RouteOk(routes[i], hosts, services) {
      RouteKeysPrefix(routes, |routes|, |routes|);
      forall i | 0 <= i < |routes| ensures keys[i] == RouteKey(routes[i].value) {
        RouteKeysPrefix(routes, i, |routes|);
      }
      forall i, j | 0 <= i < j < |routes|
        ensures keys[i] == keys[j] <==> SameMatch(routes[i].value, routes[j].value)
      {
        assert RouteOk(routes[i], hosts, services) && RouteOk(routes[j], hosts, services);
        assert routes[i] in routes && routes[j] in routes;
        RouteKeysTell(routes[i].value, routes[j].value);
      }
    }
  }
}
