// From the first start of the server to its restart: after any run of pods launched and deleted and services created
// and deleted (api/handler.go, api/server.go), recovery gives every pod its port back.
module RestartAfterRun {
  import opened ApiServer
  import opened ApiTypes
  import opened Lifecycle
  import opened PortConservation
  import opened Ports
  import opened Recovery
  import opened RecoveryConservation
  import opened ReplicaSetController
  import opened ServiceProxy

  // The server and the services it has stored.
  datatype Machine = Machine(server: ServerState, services: map<Key, Service>)

  datatype Action =
    | Launching(pod: Pod, a: Attempt)
    | Deleting(key: Key)
    | CreatingService(svc: Service, busy: set<int>)
    | DeletingService(key: Key)

  function MachineSystem(m: Machine): System {
    System(m.server.node, m.server.live)
  }

  function WithSystem(m: Machine, s: System): Machine {
    m.(server := m.server.(node := s.node, live := s.live))
  }

  // A created service is stored with the port its proxy listens on.
  function WithNodePort(svc: Service, port: int): Service {
    if |svc.ports| == 0 then svc else
      var first := svc.ports[0];
      svc.(ports := svc.ports[0 := ServicePort(if first.port == 0 then port else first.port, port)])
  }

  function Acted(m: Machine, action: Action): Machine {
    match action
    case Launching(pod, a) => m.(server := AfterLaunchPod(m.server, pod, a))
    case Deleting(key) => m.(server := AfterDeletePod(m.server, key))
    case CreatingService(svc, busy) =>
      var (p, port) := Started(ProxiesOf(MachineSystem(m)), svc, busy);
      var m' := WithSystem(m, WithProxies(MachineSystem(m), p));
      if port.None? then m' else m'.(services := m.services[svc.key := WithNodePort(svc, port.value)])
    case DeletingService(key) =>
      if key !in m.services then m else
        var s := WithProxies(MachineSystem(m), Stopped(ProxiesOf(MachineSystem(m)), key));
        WithSystem(m, s).(services := m.services - {key})
  }

  function AfterActions(m: Machine, actions: seq<Action>): Machine
    decreases |actions|
  {
    if actions == [] then m else AfterActions(Acted(m, actions[0]), actions[1..])
  }

  function FirstStart(minPort: int, maxPort: int): Machine {
    Machine(EmptyServer(minPort, maxPort), map[])
  }

  // Pods and services keep apart, a port that a proxy listens on cannot be bound again, and no service binds a port
  // of the pool's range beside the pool.
  ghost predicate Permitted(m: Machine, action: Action, podKeys: set<Key>, serviceKeys: set<Key>) {
    match action
    case Launching(pod, _) => pod.key in podKeys
    case CreatingService(svc, busy) =>
      && svc.key in serviceKeys
      && (forall k :: k in m.server.live ==> m.server.live[k] in busy)
      && (|svc.ports| > 0 && svc.ports[0].port > 0 && svc.ports[0].port !in busy ==>
            !(m.server.node.pool.minPort <= svc.ports[0].port <= m.server.node.pool.maxPort))
    case _ => true
  }

  ghost predicate AllPermitted(m: Machine, actions: seq<Action>, podKeys: set<Key>, serviceKeys: set<Key>)
    decreases |actions|
  {
    actions == [] ||
    (Permitted(m, actions[0], podKeys, serviceKeys)
     && AllPermitted(Acted(m, actions[0]), actions[1..], podKeys, serviceKeys))
  }

  // The invariant ----------------------------------------------------------------------------------------

  // A stored pod that would be recovered is managed, and stored with the port it has.
  predicate PodRecordedAt(st: ServerState, k: Key)
    requires k in st.stored
  {
    && st.stored[k].key == k
    && (Recoverable(st.stored[k]) ==>
          && k in st.node.pods && 0 <= st.node.pods[k].hostPort == st.stored[k].status.hostPort
          && (WantsPort(st.stored[k]) ==> st.node.pods[k].hostPort > 0))
  }

  ghost predicate PodsRecorded(st: ServerState) {
    forall k :: k in st.stored ==> PodRecordedAt(st, k)
  }

  // A stored service has a proxy, and is stored with its port.
  ghost predicate ServicesRecorded(m: Machine) {
    forall k :: k in m.services ==>
      && m.services[k].key == k
      && (|m.services[k].ports| > 0 ==> k in m.server.live && m.services[k].ports[0].nodePort == m.server.live[k])
  }

  predicate LiveAt(pool: Pool, live: map<Key, int>, k: Key)
    requires k in live
  {
    && live[k] > 0
    && (HeldBy(pool, k) == Some(live[k]) || !(pool.minPort <= live[k] <= pool.maxPort))
  }

  // Proxies listen on different ports, each held from the pool or outside its range.
  ghost predicate LiveApart(pool: Pool, live: map<Key, int>) {
    && (forall k :: k in live ==> LiveAt(pool, live, k))
    && (forall k, j :: k in live && j in live && k != j ==> live[k] != live[j])
  }

  ghost predicate Good(m: Machine, podKeys: set<Key>, serviceKeys: set<Key>) {
    && Safe(MachineSystem(m), podKeys, serviceKeys) && InRange(m.server.node.pool)
    && PodsRecorded(m.server) && ServicesRecorded(m) && LiveApart(m.server.node.pool, m.server.live)
    && (forall k :: k in m.services ==> k in serviceKeys)
    && (forall k :: k in m.server.stored ==> k in podKeys)
  }

  // Launches ---------------------------------------------------------------------------------------------

  lemma LaunchRecords(st: ServerState, pod: Pod, a: Attempt)
    requires Faithful(st.node.pool) && Positive(st.node.pool) && PodsRecorded(st)
    ensures PodsRecorded(AfterLaunchPod(st, pod, a))
  {
    var after := AfterLaunchPod(st, pod, a);
    LaunchRecordsOwn(st, pod, a);
    LaunchLeavesOthers(st, pod, a);
    forall k | k in after.stored
      ensures PodRecordedAt(after, k)
    {
      if k != pod.key {
        assert PodRecordedAt(st, k);
      }
    }
  }

  lemma LaunchRecordsOwn(st: ServerState, pod: Pod, a: Attempt)
    requires Faithful(st.node.pool) && Positive(st.node.pool)
    ensures var after := AfterLaunchPod(st, pod, a);
      pod.key in after.stored && PodRecordedAt(after, pod.key)
  {
    PositivePort(st.node.pool, pod.key);
    match a.engine
    case None =>
    case Some(engine) => LaunchTable(st.node, LaunchOf(pod, engine, a.world));
  }

  lemma LaunchLeavesOthers(st: ServerState, pod: Pod, a: Attempt)
    ensures var after := AfterLaunchPod(st, pod, a);
      && (forall k :: k in after.stored && k != pod.key ==> k in st.stored && after.stored[k] == st.stored[k])
      && (forall k :: k in st.node.pods && k != pod.key ==>
            k in after.node.pods && after.node.pods[k] == st.node.pods[k])
  {
    match a.engine
    case None =>
    case Some(engine) => LaunchTable(st.node, LaunchOf(pod, engine, a.world));
  }

  lemma LaunchSystem(m: Machine, pod: Pod, a: Attempt, podKeys: set<Key>, serviceKeys: set<Key>)
    requires Safe(MachineSystem(m), podKeys, serviceKeys) && Disjoint(podKeys, serviceKeys) && pod.key in podKeys
    ensures Safe(MachineSystem(Acted(m, Launching(pod, a))), podKeys, serviceKeys)
  {
    match a.engine
    case None =>
    case Some(engine) => LaunchSafe(MachineSystem(m), LaunchOf(pod, engine, a.world), podKeys, serviceKeys);
  }

  // A launch changes nothing in the pool but the entries of its key, and stays in range.
  lemma LaunchKeepsPool(st: ServerState, pod: Pod, a: Attempt)
    requires Faithful(st.node.pool) && InRange(st.node.pool)
    ensures var before, after := st.node.pool, AfterLaunchPod(st, pod, a).node.pool;
      && InRange(after) && after.minPort == before.minPort && after.maxPort == before.maxPort
      && (forall k :: k != pod.key ==> HeldBy(after, k) == HeldBy(before, k))
  {
    LaunchPool(st, pod, a);
    FreeFromIsFree(st.node.pool, st.node.pool.minPort);
  }

  lemma LiveStays(before: Pool, after: Pool, live: map<Key, int>, key: Key)
    requires LiveApart(before, live) && key !in live
    requires after.minPort == before.minPort && after.maxPort == before.maxPort
    requires forall k :: k != key ==> HeldBy(after, k) == HeldBy(before, k)
    ensures LiveApart(after, live)
  {
    forall k | k in live
      ensures LiveAt(after, live, k)
    {
      assert LiveAt(before, live, k);
    }
  }

  lemma LaunchGood(m: Machine, pod: Pod, a: Attempt, podKeys: set<Key>, serviceKeys: set<Key>)
    requires Good(m, podKeys, serviceKeys) && Disjoint(podKeys, serviceKeys) && pod.key in podKeys
    ensures Good(Acted(m, Launching(pod, a)), podKeys, serviceKeys)
  {
    LaunchSystem(m, pod, a, podKeys, serviceKeys);
    LaunchRecords(m.server, pod, a);
    LaunchKeepsPool(m.server, pod, a);
    LiveStays(m.server.node.pool, AfterLaunchPod(m.server, pod, a).node.pool, m.server.live, pod.key);
  }

  // Deletions --------------------------------------------------------------------------------------------

  lemma DeleteRecords(st: ServerState, key: Key)
    requires PodsRecorded(st)
    ensures PodsRecorded(AfterDeletePod(st, key))
  {
    var after := AfterDeletePod(st, key);
    forall k | k in after.stored
      ensures PodRecordedAt(after, k)
    {
      assert PodRecordedAt(st, k);
    }
  }

  lemma DeleteGood(m: Machine, key: Key, podKeys: set<Key>, serviceKeys: set<Key>)
    requires Good(m, podKeys, serviceKeys) && Disjoint(podKeys, serviceKeys)
    ensures Good(Acted(m, Deleting(key)), podKeys, serviceKeys)
  {
    TerminateSafe(MachineSystem(m), key, podKeys, serviceKeys);
    DeleteRecords(m.server, key);
    if key in m.server.node.pods {
      LiveStays(m.server.node.pool, AfterDeletePod(m.server, key).node.pool, m.server.live, key);
    }
  }

  // Services ---------------------------------------------------------------------------------------------

  lemma SameTableRecorded(st: ServerState, st': ServerState)
    requires PodsRecorded(st) && st'.stored == st.stored && st'.node.pods == st.node.pods
    ensures PodsRecorded(st')
  {
    forall k | k in st'.stored
      ensures PodRecordedAt(st', k)
    {
      assert PodRecordedAt(st, k);
    }
  }

  lemma NewLiveApart(before: Pool, after: Pool, live: map<Key, int>, key: Key, port: int)
    requires LiveApart(before, live) && key !in live && key !in before.held && port > 0
    requires forall k :: k in live ==> live[k] != port
    requires (after == before && !(before.minPort <= port <= before.maxPort)) || after == Bind(before, key, port)
    ensures LiveApart(after, live[key := port])
  {
    var more := live[key := port];
    forall k | k in more
      ensures LiveAt(after, more, k)
    {
      if k != key {
        assert LiveAt(before, live, k);
      }
    }
  }

  lemma CreateGood(m: Machine, svc: Service, busy: set<int>, podKeys: set<Key>, serviceKeys: set<Key>)
    requires Good(m, podKeys, serviceKeys) && Disjoint(podKeys, serviceKeys)
    requires Permitted(m, CreatingService(svc, busy), podKeys, serviceKeys)
    ensures Good(Acted(m, CreatingService(svc, busy)), podKeys, serviceKeys)
  {
    var m' := Acted(m, CreatingService(svc, busy));
    StartSafe(MachineSystem(m), svc, busy, podKeys, serviceKeys);
    SameTableRecorded(m.server, m'.server);
    CreateLive(m, svc, busy, podKeys, serviceKeys);
  }

  lemma CreateLive(m: Machine, svc: Service, busy: set<int>, podKeys: set<Key>, serviceKeys: set<Key>)
    requires Good(m, podKeys, serviceKeys) && Disjoint(podKeys, serviceKeys)
    requires Permitted(m, CreatingService(svc, busy), podKeys, serviceKeys)
    ensures var p := Started(ProxiesOf(MachineSystem(m)), svc, busy).0;
      LiveApart(p.pool, p.live) && InRange(p.pool)
    ensures ServicesRecorded(Acted(m, CreatingService(svc, busy)))
  {
    if svc.key !in m.server.live {
      assert svc.key !in m.server.node.pool.held;
      StartEffect(ProxiesOf(MachineSystem(m)), svc, busy);
      var (p, port) := Started(ProxiesOf(MachineSystem(m)), svc, busy);
      if port.Some? {
        NewLiveApart(m.server.node.pool, p.pool, m.server.live, svc.key, port.value);
      }
    }
  }

  lemma StopLiveApart(p: Proxies, key: Key)
    requires LiveApart(p.pool, p.live)
    ensures LiveApart(Stopped(p, key).pool, Stopped(p, key).live)
  {
    var after := Stopped(p, key);
    forall k | k in after.live
      ensures LiveAt(after.pool, after.live, k)
    {
      assert LiveAt(p.pool, p.live, k);
    }
  }

  lemma DeleteServiceGood(m: Machine, key: Key, podKeys: set<Key>, serviceKeys: set<Key>)
    requires Good(m, podKeys, serviceKeys) && Disjoint(podKeys, serviceKeys)
    ensures Good(Acted(m, DeletingService(key)), podKeys, serviceKeys)
  {
    StopSafe(MachineSystem(m), key, podKeys, serviceKeys);
    SameTableRecorded(m.server, Acted(m, DeletingService(key)).server);
    StopLiveApart(ProxiesOf(MachineSystem(m)), key);
  }

  lemma {:induction false} RunGood(m: Machine, actions: seq<Action>, podKeys: set<Key>, serviceKeys: set<Key>)
    requires Good(m, podKeys, serviceKeys) && Disjoint(podKeys, serviceKeys)
    requires AllPermitted(m, actions, podKeys, serviceKeys)
    ensures Good(AfterActions(m, actions), podKeys, serviceKeys)
    decreases |actions|
  {
    if actions != [] {
      match actions[0] {
        case Launching(pod, a) => LaunchGood(m, pod, a, podKeys, serviceKeys);
        case Deleting(key) => DeleteGood(m, key, podKeys, serviceKeys);
        case CreatingService(svc, busy) => CreateGood(m, svc, busy, podKeys, serviceKeys);
        case DeletingService(key) => DeleteServiceGood(m, key, podKeys, serviceKeys);
      }
      RunGood(Acted(m, actions[0]), actions[1..], podKeys, serviceKeys);
    }
  }

  // The restart ------------------------------------------------------------------------------------------

  // What is recorded for a key: the node port of its service, or the port of its pod if that would be recovered.
  function RecordOf(m: Machine, k: Key): int {
    if k in m.services then NodePort(m.services[k])
    else if k in m.server.stored && Recoverable(m.server.stored[k]) then m.server.stored[k].status.hostPort
    else 0
  }

  function Records(m: Machine): map<Key, int> {
    map k | k in m.services.Keys + m.server.stored.Keys && RecordOf(m, k) > 0 :: RecordOf(m, k)
  }

  // A record is a port held from the pool, or one outside its range on which a proxy listens.
  lemma RecordIs(m: Machine, k: Key, podKeys: set<Key>, serviceKeys: set<Key>)
    requires Good(m, podKeys, serviceKeys) && Disjoint(podKeys, serviceKeys) && k in Records(m)
    ensures var pool, port := m.server.node.pool, Records(m)[k];
      if k in m.services then k in m.server.live && m.server.live[k] == port
      else HeldBy(pool, k) == Some(port) && pool.minPort <= port <= pool.maxPort
  {
    if k !in m.services {
      assert PodRecordedAt(m.server, k);
      assert m.server.node.pool.held[k] in m.server.node.pool.used;
    }
  }

  lemma RecordsDistinct(m: Machine, podKeys: set<Key>, serviceKeys: set<Key>)
    requires Good(m, podKeys, serviceKeys) && Disjoint(podKeys, serviceKeys)
    ensures PortRecords(Records(m)) && Distinct(Records(m))
  {
    var records := Records(m);
    forall k, j | k in records && j in records && k != j
      ensures records[k] != records[j]
    {
      RecordIs(m, k, podKeys, serviceKeys);
      RecordIs(m, j, podKeys, serviceKeys);
      TwoRecords(m, k, j, podKeys, serviceKeys);
    }
  }

  lemma TwoRecords(m: Machine, k: Key, j: Key, podKeys: set<Key>, serviceKeys: set<Key>)
    requires Good(m, podKeys, serviceKeys) && k != j
    requires k in m.server.live || HeldBy(m.server.node.pool, k).Some?
    requires j in m.server.live || HeldBy(m.server.node.pool, j).Some?
    ensures k in m.server.live && j in m.server.live ==> m.server.live[k] != m.server.live[j]
    ensures k in m.server.live && HeldBy(m.server.node.pool, j).Some? ==>
              m.server.live[k] != HeldBy(m.server.node.pool, j).value
    ensures j in m.server.live && HeldBy(m.server.node.pool, k).Some? ==>
              m.server.live[j] != HeldBy(m.server.node.pool, k).value
    ensures HeldBy(m.server.node.pool, k).Some? && HeldBy(m.server.node.pool, j).Some? ==>
              HeldBy(m.server.node.pool, k) != HeldBy(m.server.node.pool, j)
  {
    var pool, live := m.server.node.pool, m.server.live;
    if k in pool.held && j in pool.held {
      HoldersDiffer(pool, k, j);
    }
    if k in live {
      assert LiveAt(pool, live, k);
    }
    if j in live {
      assert LiveAt(pool, live, j);
    }
    if k in pool.held {
      assert pool.held[k] in pool.used;
    }
    if j in pool.held {
      assert pool.held[j] in pool.used;
    }
  }

  // The server is started again with what was stored: an empty pool, nothing managed, the stored services and pods in
  // any order.
  ghost predicate RestartsFrom(r: Restart, m: Machine) {
    && r.st.node.pool == EmptyPool(m.server.node.pool.minPort, m.server.node.pool.maxPort) && r.st.node.pods == map[]
    && |r.busy| == |r.svcs|
    && (forall i :: 0 <= i < |r.svcs| ==> r.svcs[i].key in m.services && r.svcs[i] == m.services[r.svcs[i].key])
    && IsPodListing(r.list, m.server.stored, "")
    && (forall k :: k in m.server.stored ==> k in r.attempts)
  }

  lemma RestartAdmissible(r: Restart, m: Machine, podKeys: set<Key>, serviceKeys: set<Key>)
    requires Good(m, podKeys, serviceKeys) && Disjoint(podKeys, serviceKeys) && RestartsFrom(r, m)
    ensures Admissible(r, m.server.node.pool.minPort, m.server.node.pool.maxPort, Records(m), {})
  {
    forall i | 0 <= i < |r.list|
      ensures DrawnPod(r.list[i], Records(m), {})
    {
      assert PodRecordedAt(m.server, r.list[i].key);
    }
  }

  // A pod relaunched was managed before, and has the port it had.
  ghost predicate SamePorts(after: ServerState, m: Machine) {
    forall k :: k in after.node.pods ==>
      && k in m.server.node.pods
      && (WantsPort(after.node.pods[k].pod) ==> after.node.pods[k].hostPort == m.server.node.pods[k].hostPort)
  }

  lemma RestoredIsSame(r: Restart, m: Machine, podKeys: set<Key>, serviceKeys: set<Key>, k: Key)
    requires Good(m, podKeys, serviceKeys) && Disjoint(podKeys, serviceKeys) && RestartsFrom(r, m)
    requires RestoresAll(Restarted(r), r, Records(m), {}) && k in Restarted(r).node.pods
    ensures k in m.server.node.pods
    ensures WantsPort(Restarted(r).node.pods[k].pod) ==>
              Restarted(r).node.pods[k].hostPort == m.server.node.pods[k].hostPort
  {
    WasManaged(r, m, podKeys, serviceKeys, k);
    assert RestoredAt(Restarted(r), Records(m), k);
  }

  lemma WasManaged(r: Restart, m: Machine, podKeys: set<Key>, serviceKeys: set<Key>, k: Key)
    requires Good(m, podKeys, serviceKeys) && Disjoint(podKeys, serviceKeys) && RestartsFrom(r, m)
    requires IsRelaunched(r.list, r.attempts, k)
    ensures k in m.server.node.pods
    ensures k in Records(m) ==> Records(m)[k] == m.server.node.pods[k].hostPort
  {
    var i :| 0 <= i < |r.list| && r.list[i].key == k
             && Recoverable(r.list[i]) && Relaunchable(r.list[i], r.attempts[k]);
    assert PodRecordedAt(m.server, k);
  }

  // What a restart does to a machine in good order.
  lemma GoodRestart(r: Restart, m: Machine, podKeys: set<Key>, serviceKeys: set<Key>)
    requires Good(m, podKeys, serviceKeys) && Disjoint(podKeys, serviceKeys) && RestartsFrom(r, m)
    ensures SamePorts(Restarted(r), m)
    ensures forall k :: k in Restarted(r).node.pods <==> IsRelaunched(r.list, r.attempts, k)
  {
    RecordsDistinct(m, podKeys, serviceKeys);
    RestartAdmissible(r, m, podKeys, serviceKeys);
    RecoveryRestoresPorts(r, m.server.node.pool.minPort, m.server.node.pool.maxPort, Records(m), {});
    forall k | k in Restarted(r).node.pods
      ensures k in m.server.node.pods
      ensures WantsPort(Restarted(r).node.pods[k].pod) ==>
                Restarted(r).node.pods[k].hostPort == m.server.node.pods[k].hostPort
    {
      RestoredIsSame(r, m, podKeys, serviceKeys, k);
    }
  }

  // After any permitted run from the first start, whatever fails and in whatever order things are recovered, exactly
  // the pods that nothing but a port could stop are relaunched, and they have the ports they had.
  lemma RestartRestoresPorts(
    minPort: int, maxPort: int, actions: seq<Action>, podKeys: set<Key>, serviceKeys: set<Key>, r: Restart)
    requires 0 < minPort && Disjoint(podKeys, serviceKeys)
    requires AllPermitted(FirstStart(minPort, maxPort), actions, podKeys, serviceKeys)
    requires RestartsFrom(r, AfterActions(FirstStart(minPort, maxPort), actions))
    ensures var m := AfterActions(FirstStart(minPort, maxPort), actions);
      && SamePorts(Restarted(r), m)
      && (forall k :: k in Restarted(r).node.pods <==> IsRelaunched(r.list, r.attempts, k))
  {
    RunGood(FirstStart(minPort, maxPort), actions, podKeys, serviceKeys);
    GoodRestart(r, AfterActions(FirstStart(minPort, maxPort), actions), podKeys, serviceKeys);
  }

  // A pod launched before a restart is there after it, with its port, if nothing but a port could stop it then.
  lemma LaunchedComesBack(
    m: Machine, pod: Pod, a: Attempt, r: Restart, podKeys: set<Key>, serviceKeys: set<Key>)
    requires Good(m, podKeys, serviceKeys) && Disjoint(podKeys, serviceKeys) && pod.key in podKeys
    requires a.engine.Some? && pod.key !in m.server.node.pods
    requires OutcomeOf(m.server.node, LaunchOf(pod, a.engine.value, a.world)) == Outcome.Launched
    requires RestartsFrom(r, Acted(m, Launching(pod, a))) && pod.key in r.attempts
    requires Relaunchable(pod, r.attempts[pod.key])
    ensures pod.key in Restarted(r).node.pods
    ensures WantsPort(pod) && WantsPort(Restarted(r).node.pods[pod.key].pod) ==>
      Restarted(r).node.pods[pod.key].hostPort == AfterLaunchPod(m.server, pod, a).node.pods[pod.key].hostPort
  {
    var m' := Acted(m, Launching(pod, a));
    LaunchGood(m, pod, a, podKeys, serviceKeys);
    GoodRestart(r, m', podKeys, serviceKeys);
    LaunchTable(m.server.node, LaunchOf(pod, a.engine.value, a.world));
    LaunchedAsAsked(m.server, pod, a, a.engine.value.0, a.engine.value.1);
    var stored := m'.server.stored[pod.key];
    SameRelaunchable(pod, stored.status, r.attempts[pod.key]);
    assert stored in r.list && stored.status.phase == Running && Relaunchable(stored, r.attempts[pod.key]);
  }

  // A pod deleted before a restart is not there after it.
  lemma DeletedStaysAway(m: Machine, key: Key, r: Restart, podKeys: set<Key>, serviceKeys: set<Key>)
    requires Good(m, podKeys, serviceKeys) && Disjoint(podKeys, serviceKeys)
    requires RestartsFrom(r, Acted(m, Deleting(key)))
    ensures key !in Restarted(r).node.pods
  {
    DeleteGood(m, key, podKeys, serviceKeys);
    GoodRestart(r, Acted(m, Deleting(key)), podKeys, serviceKeys);
  }

  // A service that was created listens after a restart on the port it had, if that can be bound and nobody else has it,
  // exactly when it asked for none, or for that one, or the one it asked for cannot be bound.
  lemma CreatedListensAgainIff(m: Machine, svc: Service, busy: set<int>, st: ServerState, busy': set<int>)
    requires svc.key !in m.server.live && |svc.ports| > 0
    requires svc.key in Acted(m, CreatingService(svc, busy)).server.live
    ensures svc.key in Acted(m, CreatingService(svc, busy)).services
    ensures var m' := Acted(m, CreatingService(svc, busy));
      var stored, port := m'.services[svc.key], m'.server.live[svc.key];
      port > 0 && Mutual(st.node.pool) && svc.key !in st.live
      && port !in busy' && !TakenByOther(st.node.pool, port, svc.key) ==>
        var after := RecoverService(st, stored, busy');
        (svc.key in after.live && after.live[svc.key] == port) <==>
          svc.ports[0].port <= 0 || svc.ports[0].port == port || svc.ports[0].port in busy'
  {
    var m' := Acted(m, CreatingService(svc, busy));
    var stored, port := m'.services[svc.key], m'.server.live[svc.key];
    if port > 0 && Mutual(st.node.pool) && svc.key !in st.live {
      ServiceListensIff(st, stored, busy');
    }
  }

  // A service that was deleted is not stored, its proxy does not live, and it holds no port.
  lemma DeletedServiceIsGone(m: Machine, key: Key, podKeys: set<Key>, serviceKeys: set<Key>)
    requires Good(m, podKeys, serviceKeys) && key in m.services && |m.services[key].ports| > 0
    ensures var m' := Acted(m, DeletingService(key));
      && key !in m'.services && key !in m'.server.live && key !in m'.server.node.pool.held
      && m'.server.stored == m.server.stored && m'.server.node.pods == m.server.node.pods
      && (forall k :: k in m.services && k != key ==> k in m'.services && m'.services[k] == m.services[k])
  {
  }
}
