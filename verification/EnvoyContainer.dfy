/** The Envoy container itself: whether its published ports have to change, and
    which workload networks it is attached to. */
module EnvoyContainer {
  import opened Text
  import opened ScopedKeys

  datatype PortBinding = PortBinding(containerPort: nat, hostPort: nat, protocol: string)

  function Protocol(p: PortBinding): string {
    if Blank(p.protocol) then "tcp" else Trim(p.protocol)
  }

  /** `portBindingKey`. */
  function PortKey(p: PortBinding): string {
    Decimal(p.hostPort) + ":" + Decimal(p.containerPort) + "/" + Protocol(p)
  }

  function PortKeys(ports: seq<PortBinding>): (keys: seq<string>)
    ensures |keys| == |ports| && forall i :: 0 <= i < |keys| ==> keys[i] == PortKey(ports[i])
  {
    seq(|ports|, i requires 0 <= i < |ports| => PortKey(ports[i]))
  }

  /** The key tells bindings apart, up to white space around the protocol and to leaving
      out tcp. */
  lemma PortKeyInjective(a: PortBinding, b: PortBinding)
    ensures PortKey(a) == PortKey(b) <==>
            && a.hostPort == b.hostPort && a.containerPort == b.containerPort
            && (if Trim(a.protocol) == "" then "tcp" else Trim(a.protocol)) ==
               (if Trim(b.protocol) == "" then "tcp" else Trim(b.protocol))
  {
    hide Trim, Decimal;
    var restA, restB := Decimal(a.containerPort) + ("/" + Protocol(a)), Decimal(b.containerPort) + ("/" + Protocol(b));
    assert PortKey(a) == Decimal(a.hostPort) + (":" + restA) && PortKey(b) == Decimal(b.hostPort) + (":" + restB);
    if PortKey(a) == PortKey(b) {
      ParseDecimal(a.hostPort, ":" + restA);
      ParseDecimal(b.hostPort, ":" + restB);
      assert (":" + restA)[1..] == restA && (":" + restB)[1..] == restB;
      ParseDecimal(a.containerPort, "/" + Protocol(a));
      ParseDecimal(b.containerPort, "/" + Protocol(b));
      assert ("/" + Protocol(a))[1..] == Protocol(a) && ("/" + Protocol(b))[1..] == Protocol(b);
    }
  }

  /** `counts` holds the non-negative multiplicities of `m`. */
  ghost predicate Counted(counts: map<string, nat>, m: multiset<string>) {
    && (forall key <- counts :: m[key] == counts[key])
    && (forall key <- m :: key in counts)
  }

  lemma CountUp(counts: map<string, nat>, keys: seq<string>, i: nat)
    requires i < |keys| && Counted(counts, multiset(keys[..i]))
    ensures Counted(counts[keys[i] := (if keys[i] in counts then counts[keys[i]] else 0) + 1], multiset(keys[..i + 1]))
  {
    assert keys[..i + 1] == keys[..i] + [keys[i]];
  }

  /** What the first `j` desired keys leave of `all`. */
  function LeftOver(all: multiset<string>, desired: seq<string>, j: nat): multiset<string>
    requires j <= |desired|
  {
    all - multiset(desired[..j])
  }

  lemma CountDown(counts: map<string, nat>, all: multiset<string>, desired: seq<string>, j: nat)
    requires j < |desired| && multiset(desired[..j]) <= all && Counted(counts, LeftOver(all, desired, j))
    requires desired[j] in counts && counts[desired[j]] > 0
    ensures multiset(desired[..j + 1]) <= all
    ensures Counted(counts[desired[j] := counts[desired[j]] - 1], LeftOver(all, desired, j + 1))
  {
    assert desired[..j + 1] == desired[..j] + [desired[j]];
    assert multiset(desired[..j + 1]) == multiset(desired[..j]) + multiset{desired[j]};
    var more := LeftOver(all, desired, j + 1);
    assert forall key :: more[key] == LeftOver(all, desired, j)[key] - if key == desired[j] then 1 else 0;
  }

  lemma RunsOut(counts: map<string, nat>, all: multiset<string>, desired: seq<string>, j: nat)
    requires j < |desired| && multiset(desired[..j]) <= all && Counted(counts, LeftOver(all, desired, j))
    requires desired[j] !in counts || counts[desired[j]] == 0
    ensures all != multiset(desired)
  {
    var key := desired[j];
    assert desired == desired[..j] + [key] + desired[j + 1..];
    assert multiset(desired) == multiset(desired[..j]) + multiset{key} + multiset(desired[j + 1..]);
    assert multiset(desired)[key] > multiset(desired[..j])[key];
    assert LeftOver(all, desired, j)[key] == 0;
  }

  lemma NothingLeftOver(counts: map<string, nat>, all: multiset<string>, desired: seq<string>)
    requires multiset(desired) <= all && Counted(counts, LeftOver(all, desired, |desired|))
    ensures (forall key <- counts :: counts[key] == 0) <==> all == multiset(desired)
  {
    assert desired[..|desired|] == desired;
    var rest := LeftOver(all, desired, |desired|);
    assert all == multiset(desired) + rest;
    if forall key <- counts :: counts[key] == 0 {
      assert forall key :: rest[key] == 0;
      assert rest == multiset{};
    }
  }

  lemma CountedStarts(all: multiset<string>, keys: seq<string>, desired: seq<string>)
    ensures Counted(map[], multiset(keys[..0]))
    ensures LeftOver(all, desired, 0) == all && multiset(desired[..0]) <= all
  {
  }

  lemma SizesDiffer(a: seq<string>, b: seq<string>)
    requires |a| != |b|
    ensures multiset(a) != multiset(b)
  {
    assert |multiset(a)| == |a| && |multiset(b)| == |b|;
  }

  /** `samePublishedPorts`: the same bindings, each as often, in any order. */
  method SamePublishedPorts(current: seq<PortBinding>, desired: seq<PortBinding>) returns (same: bool)
    ensures same <==> multiset(PortKeys(current)) == multiset(PortKeys(desired))
  {
    hide PortKey, Counted, LeftOver;
    var currentKeys, desiredKeys := PortKeys(current), PortKeys(desired);
    ghost var all := multiset(currentKeys);
    if |current| != |desired| {
      SizesDiffer(currentKeys, desiredKeys);
      return false;
    }
    var counts := CountKeys(currentKeys);
    CountedStarts(all, currentKeys, desiredKeys);
    for j := 0 to |desiredKeys|
      invariant multiset(desiredKeys[..j]) <= all && Counted(counts, LeftOver(all, desiredKeys, j))
    {
      var key := desiredKeys[j];
      if key !in counts || counts[key] == 0 {
        RunsOut(counts, all, desiredKeys, j);
        return false;
      }
      CountDown(counts, all, desiredKeys, j);
      counts := counts[key := counts[key] - 1];
    }
    assert desiredKeys[..|desiredKeys|] == desiredKeys;
    NothingLeftOver(counts, all, desiredKeys);
    same := UsedUp(counts);
  }

  method CountKeys(keys: seq<string>) returns (counts: map<string, nat>)
    ensures Counted(counts, multiset(keys))
  {
    hide Counted;
    counts := map[];
    CountedStarts(multiset(keys), keys, []);
    for i := 0 to |keys|
      invariant Counted(counts, multiset(keys[..i]))
    {
      var key := keys[i];
      CountUp(counts, keys, i);
      counts := counts[key := (if key in counts then counts[key] else 0) + 1];
    }
    assert keys[..|keys|] == keys;
  }

  method UsedUp(counts: map<string, nat>) returns (r: bool)
    ensures r <==> forall key <- counts :: counts[key] == 0
  {
    var left := counts.Keys;
    while left != {}
      invariant left <= counts.Keys
      invariant forall key <- counts :: key !in left ==> counts[key] == 0
      decreases left
    {
      var key :| key in left;
      left := left - {key};
      if counts[key] != 0 { return false; }
    }
    return true;
  }

  // ---- network attachments ----

  /** The engine, as far as Envoy's networks are concerned; any call may fail. */
  class Engine {
    var attached: set<string>
    var networks: set<string>

    method EnsureNetwork(name: string) returns (ok: bool)
      modifies this`networks
      ensures if ok then networks == old(networks) + {name} else networks == old(networks)
    {
      ok := *;
      if ok { networks := networks + {name}; }
    }

    method Connect(name: string) returns (ok: bool)
      modifies this`attached
      ensures attached == if ok then old(attached) + {name} else old(attached)
    {
      ok := *;
      if ok { attached := attached + {name}; }
    }

    method Disconnect(name: string) returns (ok: bool)
      modifies this`attached
      ensures attached == if ok then old(attached) - {name} else old(attached)
    {
      ok := *;
      if ok { attached := attached - {name}; }
    }

    method Inspect() returns (r: Option<set<string>>)
      ensures r.Some? ==> r.value == attached
    {
      var ok: bool := *;
      r := if ok then Some(attached) else None;
    }
  }

  /** The workload networks asked for. */
  function Wanted(workloadNetworks: seq<string>, own: string): set<string> {
    set n <- workloadNetworks | !Blank(n) && Trim(n) != own :: Trim(n)
  }

  /** A network that the agent attached Envoy to and that nobody asks for now. */
  predicate Stale(name: string, own: string, managedPrefix: string, wanted: set<string>) {
    name != own && name !in wanted && HasPrefix(name, managedPrefix)
  }

  method WantedNetworks(workloadNetworks: seq<string>, own: string) returns (desired: set<string>)
    ensures desired == Wanted(workloadNetworks, own)
  {
    hide Trim;
    desired := {};
    for i := 0 to |workloadNetworks|
      invariant desired == Wanted(workloadNetworks[..i], own)
    {
      assert workloadNetworks[..i + 1] == workloadNetworks[..i] + [workloadNetworks[i]];
      var name := Trim(workloadNetworks[i]);
      if name == "" || name == own { continue; }
      desired := desired + {name};
    }
    assert workloadNetworks[..|workloadNetworks|] == workloadNetworks;
  }

  method ConnectWanted(engine: Engine, desired: set<string>, attached: set<string>) returns (ok: bool)
    requires attached == engine.attached
    modifies engine`attached, engine`networks
    ensures attached <= engine.attached <= attached + desired
    ensures ok ==> engine.attached == attached + desired && engine.networks == old(engine.networks) + desired
  {
    var left := desired;
    while left != {}
      invariant left <= desired
      invariant engine.networks == old(engine.networks) + (desired - left)
      invariant engine.attached == attached + (desired - left)
      decreases left
    {
      var name :| name in left;
      left := left - {name};
      ok := engine.EnsureNetwork(name);
      if !ok { return; }
      if name in attached { continue; }
      ok := engine.Connect(name);
      if !ok { return; }
    }
    ok := true;
  }

  method DisconnectStale(engine: Engine, own: string, managedPrefix: string, desired: set<string>,
                         attached: set<string>) returns (ok: bool)
    requires engine.attached == attached + desired
    modifies engine`attached
    ensures engine.attached <= attached + desired
    ensures forall n <- attached + desired :: n in engine.attached || Stale(n, own, managedPrefix, desired)
    ensures ok ==> forall n <- engine.attached :: !Stale(n, own, managedPrefix, desired)
  {
    var left := attached;
    while left != {}
      invariant left <= attached && engine.attached <= attached + desired
      invariant forall n <- attached + desired :: n in engine.attached || Stale(n, own, managedPrefix, desired)
      invariant forall n <- engine.attached :: n in left || !Stale(n, own, managedPrefix, desired)
      decreases left
    {
      var name :| name in left;
      left := left - {name};
      if name == own || name in desired || !HasPrefix(name, managedPrefix) { continue; }
      ok := engine.Disconnect(name);
      if !ok { return; }
    }
    ok := true;
  }

  /** `syncWorkloadNetworks`.  On success Envoy is attached to exactly the wanted
      networks, its own, and whatever others are not the agent's business; a
      failure leaves something in between, and never detaches a wanted network. */
  method SyncWorkloadNetworks(engine: Engine, own: string, managedPrefix: string, workloadNetworks: seq<string>)
    returns (ok: bool)
    modifies engine`attached, engine`networks
    ensures ok ==> engine.attached == (set n <- old(engine.attached) | !Stale(n, own, managedPrefix,
                                                                              Wanted(workloadNetworks, own))) +
                                      Wanted(workloadNetworks, own)
    ensures ok ==> engine.networks == old(engine.networks) + Wanted(workloadNetworks, own)
    ensures engine.attached <= old(engine.attached) + Wanted(workloadNetworks, own)
    ensures forall n <- old(engine.attached) ::
      n in engine.attached ||
      Stale(n, own, managedPrefix, Wanted(workloadNetworks, own))
  {
    hide Wanted;
    var desired := WantedNetworks(workloadNetworks, own);
    var inspected := engine.Inspect();
    if inspected.None? { return false; }
    ok := ConnectWanted(engine, desired, inspected.value);
    if !ok { return; }
    ok := DisconnectStale(engine, own, managedPrefix, desired, inspected.value);
  }
}
