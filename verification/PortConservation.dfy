// Host ports over whole runs of pod launches and terminations and service starts and stops, which share one
// pool and one space of keys.
module PortConservation {
  import opened ApiTypes
  import opened Lifecycle
  import opened Ports
  import opened ServiceProxy
  import opened Volumes

  datatype System = System(node: Node, live: map<Key, int>)

  datatype Step =
    | LaunchPod(l: Launch)
    | TerminatePod(key: Key)
    | StartService(svc: Service, busy: set<int>)
    | StopService(key: Key)

  function WithProxies(s: System, p: Proxies): System {
    System(s.node.(pool := p.pool), p.live)
  }

  function ProxiesOf(s: System): Proxies {
    Proxies(s.node.pool, s.live)
  }

  function Next(s: System, step: Step): System {
    match step
    case LaunchPod(l) => s.(node := AfterLaunch(s.node, l))
    case TerminatePod(key) => s.(node := AfterTerminate(s.node, key))
    case StartService(svc, busy) => WithProxies(s, Started(ProxiesOf(s), svc, busy).0)
    case StopService(key) => WithProxies(s, Stopped(ProxiesOf(s), key))
  }

  function After(s: System, steps: seq<Step>): System
    decreases |steps|
  {
    if steps == [] then s else After(Next(s, steps[0]), steps[1..])
  }

  function Fresh(minPort: int, maxPort: int): System {
    System(Node(EmptyPool(minPort, maxPort), map[], map[]), map[])
  }

  // A managed pod with a host port holds exactly that port.
  ghost predicate PodsHold(s: System) {
    forall k :: k in s.node.pods && s.node.pods[k].hostPort > 0 ==>
      k in s.node.pool.held && s.node.pool.held[k] == s.node.pods[k].hostPort
  }

  // A held port belongs to a managed pod or to a live proxy.
  ghost predicate HeldIsUsed(s: System) {
    forall k :: k in s.node.pool.held ==>
      || (k in s.node.pods && s.node.pods[k].hostPort == s.node.pool.held[k])
      || (k in s.live && s.live[k] == s.node.pool.held[k])
  }

  ghost predicate Conserved(s: System) {
    Mutual(s.node.pool) && Positive(s.node.pool) && PodsHold(s) && HeldIsUsed(s)
  }

  lemma NoSharedPort(s: System, k: Key, j: Key)
    requires Conserved(s) && k in s.node.pods && j in s.node.pods && k != j
    requires s.node.pods[k].hostPort > 0
    ensures s.node.pods[k].hostPort != s.node.pods[j].hostPort
  {
    if s.node.pods[j].hostPort > 0 {
      HoldersDiffer(s.node.pool, k, j);
    }
  }

  // Pods take their keys from one set and services from another.
  predicate Allowed(step: Step, podKeys: set<Key>, serviceKeys: set<Key>) {
    match step
    case LaunchPod(l) => l.pod.key in podKeys
    case StartService(svc, _) => svc.key in serviceKeys
    case _ => true
  }

  predicate AllAllowed(steps: seq<Step>, podKeys: set<Key>, serviceKeys: set<Key>)
    decreases |steps|
  {
    steps == [] || (Allowed(steps[0], podKeys, serviceKeys) && AllAllowed(steps[1..], podKeys, serviceKeys))
  }

  predicate Disjoint(podKeys: set<Key>, serviceKeys: set<Key>) {
    forall k :: k in podKeys ==> k !in serviceKeys
  }

  ghost predicate Safe(s: System, podKeys: set<Key>, serviceKeys: set<Key>) {
    && Conserved(s)
    && (forall k :: k in s.node.pods ==> k in podKeys)
    && (forall k :: k in s.live ==> k in serviceKeys)
  }

  // While keys are apart, a key that is neither managed nor live holds nothing, so a launch or start that fails
  // has nothing to lose.
  lemma LaunchSafe(s: System, l: Launch, podKeys: set<Key>, serviceKeys: set<Key>)
    requires Safe(s, podKeys, serviceKeys) && Disjoint(podKeys, serviceKeys) && l.pod.key in podKeys
    ensures Safe(Next(s, LaunchPod(l)), podKeys, serviceKeys)
  {
    var key := l.pod.key;
    if OutcomeOf(s.node, l) == Launched {
      assert key !in s.node.pool.held;
      PositivePort(s.node.pool, key);
      ApplyMutual(s.node.pool, AllocateOp(key));
    } else {
      FailedLaunch(s.node, l);
    }
  }

  lemma TerminateSafe(s: System, key: Key, podKeys: set<Key>, serviceKeys: set<Key>)
    requires Safe(s, podKeys, serviceKeys) && Disjoint(podKeys, serviceKeys)
    ensures Safe(Next(s, TerminatePod(key)), podKeys, serviceKeys)
  {
    ApplyMutual(s.node.pool, ReleaseOp(key));
  }

  lemma StartSafe(s: System, svc: Service, busy: set<int>, podKeys: set<Key>, serviceKeys: set<Key>)
    requires Safe(s, podKeys, serviceKeys) && Disjoint(podKeys, serviceKeys) && svc.key in serviceKeys
    ensures Safe(Next(s, StartService(svc, busy)), podKeys, serviceKeys)
  {
    if svc.key !in s.live {
      assert svc.key !in s.node.pool.held;
      StartEffect(ProxiesOf(s), svc, busy);
      var (p, port) := Started(ProxiesOf(s), svc, busy);
      if port.Some? {
        LiveSafe(s, p, svc.key, port.value, podKeys, serviceKeys);
      }
    }
  }

  // A service that holds nothing is started beside the pool, or with one of its ports, or not at all.
  lemma StartEffect(p: Proxies, svc: Service, busy: set<int>)
    requires Mutual(p.pool) && Positive(p.pool) && svc.key !in p.live && svc.key !in p.pool.held
    ensures var (after, port) := Started(p, svc, busy);
      if port.None? then after == p
      else
        && after.live == p.live[svc.key := port.value] && port.value > 0 && port.value !in busy
        && ((after.pool == p.pool && |svc.ports| > 0 && port.value == svc.ports[0].port)
            || (after.pool == Bind(p.pool, svc.key, port.value)
                && p.pool.minPort <= port.value <= p.pool.maxPort && port.value !in p.pool.used))
        && Mutual(after.pool) && Positive(after.pool)
  {
    PositivePort(p.pool, svc.key);
    ApplyMutual(p.pool, AllocateOp(svc.key));
    FreeFromIsFree(p.pool, p.pool.minPort);
  }

  lemma LiveSafe(s: System, p: Proxies, key: Key, port: int, podKeys: set<Key>, serviceKeys: set<Key>)
    requires Safe(s, podKeys, serviceKeys) && Disjoint(podKeys, serviceKeys) && key in serviceKeys
    requires key !in s.node.pool.held && p.live == s.live[key := port] && Mutual(p.pool) && Positive(p.pool)
    requires p.pool == s.node.pool || p.pool == Bind(s.node.pool, key, port)
    ensures Safe(WithProxies(s, p), podKeys, serviceKeys)
  {
  }

  lemma StopSafe(s: System, key: Key, podKeys: set<Key>, serviceKeys: set<Key>)
    requires Safe(s, podKeys, serviceKeys) && Disjoint(podKeys, serviceKeys)
    ensures Safe(Next(s, StopService(key)), podKeys, serviceKeys)
  {
    ApplyMutual(s.node.pool, ReleaseOp(key));
  }

  lemma {:induction false} RunSafe(s: System, steps: seq<Step>, podKeys: set<Key>, serviceKeys: set<Key>)
    requires Safe(s, podKeys, serviceKeys) && Disjoint(podKeys, serviceKeys)
    requires AllAllowed(steps, podKeys, serviceKeys)
    ensures Safe(After(s, steps), podKeys, serviceKeys)
    decreases |steps|
  {
    if steps != [] {
      match steps[0] {
        case LaunchPod(l) => LaunchSafe(s, l, podKeys, serviceKeys);
        case TerminatePod(key) => TerminateSafe(s, key, podKeys, serviceKeys);
        case StartService(svc, busy) => StartSafe(s, svc, busy, podKeys, serviceKeys);
        case StopService(key) => StopSafe(s, key, podKeys, serviceKeys);
      }
      RunSafe(Next(s, steps[0]), steps[1..], podKeys, serviceKeys);
    }
  }

  ghost predicate AlwaysConserved(minPort: int, maxPort: int, podKeys: set<Key>, serviceKeys: set<Key>) {
    forall steps :: AllAllowed(steps, podKeys, serviceKeys) ==> Conserved(After(Fresh(minPort, maxPort), steps))
  }

  // Ports are conserved over every run exactly when no pod and service share a namespace and name.
  lemma ConservedIffDisjoint(minPort: int, maxPort: int, podKeys: set<Key>, serviceKeys: set<Key>)
    requires 0 < minPort <= maxPort
    ensures AlwaysConserved(minPort, maxPort, podKeys, serviceKeys) <==> Disjoint(podKeys, serviceKeys)
  {
    if Disjoint(podKeys, serviceKeys) {
      forall steps | AllAllowed(steps, podKeys, serviceKeys)
        ensures Conserved(After(Fresh(minPort, maxPort), steps))
      {
        RunSafe(Fresh(minPort, maxPort), steps, podKeys, serviceKeys);
      }
    } else {
      var k :| k in podKeys && k in serviceKeys;
      SharedKeyLosesPort(minPort, maxPort, k, podKeys, serviceKeys);
    }
  }

  // A pod with one port and a service with the same key.
  function PlainLaunch(k: Key): Launch {
    var container := Container("c", "native://c", [80]);
    var pod := Pod(k, "u", map[], Unowned, None, PodSpec([container], [], "", []), PodStatus(NoPhase, [], 0));
    var world := World(Config(map[], map[]), Disk({}, {}), None, true, {"native"}, true, true);
    Launch(pod, "native", "c", world)
  }

  function PlainService(k: Key): Service {
    Service(k, [ServicePort(8080, 0)])
  }

  // The service gets the port it asks for; stopping it gives the pod's port away while the pod runs on.
  lemma SharedKeyLosesPort(minPort: int, maxPort: int, k: Key, podKeys: set<Key>, serviceKeys: set<Key>)
    requires 0 < minPort <= maxPort && k in podKeys && k in serviceKeys
    ensures var steps := [LaunchPod(PlainLaunch(k)), StartService(PlainService(k), {}), StopService(k)];
      && AllAllowed(steps, podKeys, serviceKeys)
      && !PodsHold(After(Fresh(minPort, maxPort), steps))
  {
    var l, svc := PlainLaunch(k), PlainService(k);
    var s0 := Fresh(minPort, maxPort);
    var s1 := Next(s0, LaunchPod(l));
    assert FreeFrom(s0.node.pool, minPort) == Some(minPort);
    assert OutcomeOf(s0.node, l) == Launched;
    assert s1.node.pods[k].hostPort == minPort && s1.node.pool.held == map[k := minPort];
    var s2 := Next(s1, StartService(svc, {}));
    assert s2.live == map[k := 8080] && s2.node == s1.node;
    var s3 := Next(s2, StopService(k));
    assert k !in s3.node.pool.held && s3.node.pods == s1.node.pods;
    AfterThree(s0, LaunchPod(l), StartService(svc, {}), StopService(k));
    AllowedThree(LaunchPod(l), StartService(svc, {}), StopService(k), podKeys, serviceKeys);
  }

  lemma AfterThree(s: System, a: Step, b: Step, c: Step)
    ensures After(s, [a, b, c]) == Next(Next(Next(s, a), b), c)
  {
    assert [a, b, c][1..] == [b, c];
    assert [b, c][1..] == [c];
    assert [c][1..] == [];
    assert After(Next(Next(s, a), b), [c]) == After(Next(Next(Next(s, a), b), c), []);
  }

  lemma AllowedThree(a: Step, b: Step, c: Step, podKeys: set<Key>, serviceKeys: set<Key>)
    requires Allowed(a, podKeys, serviceKeys) && Allowed(b, podKeys, serviceKeys) && Allowed(c, podKeys, serviceKeys)
    ensures AllAllowed([a, b, c], podKeys, serviceKeys)
  {
    assert [a, b, c][1..] == [b, c];
    assert [b, c][1..] == [c];
    assert AllAllowed([c], podKeys, serviceKeys);
  }

  // Shutting everything down, in whatever order, empties the pool.
  function ShutDown(s: System, podKeys: seq<Key>, serviceKeys: seq<Key>): System {
    var node := AfterTerminates(s.node, podKeys);
    WithProxies(System(node, s.live), StoppedAll(Proxies(node.pool, s.live), serviceKeys))
  }

  lemma {:induction false} TerminatesSafe(s: System, keys: seq<Key>, podKeys: set<Key>, serviceKeys: set<Key>)
    requires Safe(s, podKeys, serviceKeys) && Disjoint(podKeys, serviceKeys)
    ensures var after := System(AfterTerminates(s.node, keys), s.live);
      && Safe(after, podKeys, serviceKeys)
      && (forall k :: k in after.node.pods ==> k in s.node.pods && k !in keys)
    decreases |keys|
  {
    if keys != [] {
      TerminateSafe(s, keys[0], podKeys, serviceKeys);
      TerminatesSafe(Next(s, TerminatePod(keys[0])), keys[1..], podKeys, serviceKeys);
    }
  }

  lemma {:induction false} StopsSafe(s: System, keys: seq<Key>, podKeys: set<Key>, serviceKeys: set<Key>)
    requires Safe(s, podKeys, serviceKeys) && Disjoint(podKeys, serviceKeys)
    ensures var after := WithProxies(s, StoppedAll(ProxiesOf(s), keys));
      && Safe(after, podKeys, serviceKeys)
      && (forall k :: k in after.live ==> k in s.live && k !in keys)
    decreases |keys|
  {
    if keys != [] {
      StopSafe(s, keys[0], podKeys, serviceKeys);
      StopsSafe(Next(s, StopService(keys[0])), keys[1..], podKeys, serviceKeys);
    }
  }

  lemma ShutDownEmptiesPool(
    minPort: int, maxPort: int, steps: seq<Step>, podKeys: set<Key>, serviceKeys: set<Key>,
    pods: seq<Key>, services: seq<Key>)
    requires 0 < minPort && Disjoint(podKeys, serviceKeys) && AllAllowed(steps, podKeys, serviceKeys)
    requires forall k :: k in After(Fresh(minPort, maxPort), steps).node.pods ==> k in pods
    requires forall k :: k in After(Fresh(minPort, maxPort), steps).live ==> k in services
    ensures var end := ShutDown(After(Fresh(minPort, maxPort), steps), pods, services);
      && end.node.pods == map[] && end.live == map[]
      && end.node.pool.held == map[] && end.node.pool.used == map[]
  {
    var s := After(Fresh(minPort, maxPort), steps);
    RunSafe(Fresh(minPort, maxPort), steps, podKeys, serviceKeys);
    TerminatesSafe(s, pods, podKeys, serviceKeys);
    var quiet := System(AfterTerminates(s.node, pods), s.live);
    StopsSafe(quiet, services, podKeys, serviceKeys);
    NoneHeldNoneUsed(ShutDown(s, pods, services).node.pool);
  }
}
