// Restarting the server (api/server.go): when does every pod that is relaunched get back the port it had?
module Recovery {
  import opened ApiServer
  import opened ApiTypes
  import opened Lifecycle
  import opened Ports
  import opened ServiceProxy
  import opened Totals
  import opened Volumes

  // The port recorded for a key, as a service's node port or a pod's host port; what is recorded is positive.
  ghost predicate PortRecords(records: map<Key, int>) {
    forall k :: k in records ==> records[k] > 0
  }

  // No two keys have the same port recorded.
  ghost predicate Distinct(records: map<Key, int>) {
    forall k, j :: k in records && j in records && k != j ==> records[k] != records[j]
  }

  // The keys of pods that want a port and have none recorded.
  ghost predicate Apart(records: map<Key, int>, unrecorded: set<Key>) {
    forall k :: k in unrecorded ==> k !in records
  }

  // How many ports below a given one nobody has recorded.
  function Gap(minPort: int, port: int, records: map<Key, int>): nat
    decreases port - minPort
  {
    if port <= minPort then 0 else Gap(minPort, port - 1, records) + if port - 1 in records.Values then 0 else 1
  }

  // Below each recorded port of the range there are unrecorded ones enough for all pods without a record.
  ghost predicate Roomy(minPort: int, maxPort: int, records: map<Key, int>, unrecorded: set<Key>) {
    forall r :: r in records && minPort <= records[r] <= maxPort ==>
      |unrecorded| <= Gap(minPort, records[r], records)
  }

  predicate Recoverable(pod: Pod) {
    pod.status.phase == Running || pod.status.phase == Pending
  }

  // Services and pods with these records.  What is stored for a pod that is not recovered does not count.
  predicate DrawnService(svc: Service, records: map<Key, int>) {
    NodePort(svc) > 0 ==> svc.key in records && records[svc.key] == NodePort(svc)
  }

  predicate DrawnPod(pod: Pod, records: map<Key, int>, unrecorded: set<Key>) {
    && (Recoverable(pod) && pod.status.hostPort > 0 ==>
          pod.key in records && records[pod.key] == pod.status.hostPort)
    && (Recoverable(pod) && WantsPort(pod) && pod.status.hostPort <= 0 ==> pod.key in unrecorded)
  }

  // Ports are held as recorded, or are nobody's record.
  ghost predicate Agrees(pool: Pool, records: map<Key, int>, unrecorded: set<Key>) {
    Mutual(pool) && forall k :: k in pool.held ==> AgreesAt(pool, records, unrecorded, k)
  }

  predicate AgreesAt(pool: Pool, records: map<Key, int>, unrecorded: set<Key>, k: Key)
    requires k in pool.held
  {
    if k in records then pool.held[k] == records[k] else k in unrecorded && pool.held[k] !in records.Values
  }

  // Every managed pod that needs a port has its recorded one, and it is recorded again.
  ghost predicate Restored(st: ServerState, records: map<Key, int>, unrecorded: set<Key>) {
    forall k :: k in st.node.pods && k !in unrecorded ==> RestoredAt(st, records, k)
  }

  predicate RestoredAt(st: ServerState, records: map<Key, int>, k: Key)
    requires k in st.node.pods
  {
    var mp := st.node.pods[k];
    && (if WantsPort(mp.pod) then k in records && mp.hostPort == records[k] else mp.hostPort == 0)
    && k in st.stored && st.stored[k].status.phase == Running && st.stored[k].status.hostPort == mp.hostPort
  }

  // The pool -----------------------------------------------------------------------------------------------

  lemma ReserveAgrees(pool: Pool, records: map<Key, int>, unrecorded: set<Key>, k: Key)
    requires Distinct(records) && Agrees(pool, records, unrecorded) && k in records
    ensures var after := Reservation(pool, k, records[k]).0;
      && Agrees(after, records, unrecorded) && k in after.held && after.held[k] == records[k]
      && after.minPort == pool.minPort && after.maxPort == pool.maxPort
  {
    var port := records[k];
    var after := Reservation(pool, k, port).0;
    if k in pool.held {
      assert AgreesAt(pool, records, unrecorded, k);
      assert pool.used[port] == k;
    }
    if port in pool.used {
      UsedIsHeld(pool, port);
      assert AgreesAt(pool, records, unrecorded, pool.used[port]);
      assert port in records.Values;
    }
    ApplyMutual(pool, ReserveOp(k, port));
    forall j | j in after.held
      ensures AgreesAt(after, records, unrecorded, j)
    {
      if j in pool.held {
        assert AgreesAt(pool, records, unrecorded, j);
      }
    }
  }

  lemma ReleaseAgrees(pool: Pool, records: map<Key, int>, unrecorded: set<Key>, k: Key)
    requires Agrees(pool, records, unrecorded)
    ensures Agrees(Released(pool, k), records, unrecorded)
  {
    ApplyMutual(pool, ReleaseOp(k));
    forall j | j in Released(pool, k).held
      ensures AgreesAt(Released(pool, k), records, unrecorded, j)
    {
      assert AgreesAt(pool, records, unrecorded, j);
    }
  }

  function GapPorts(minPort: int, port: int, records: map<Key, int>): set<int>
    decreases port - minPort
  {
    if port <= minPort then {}
    else GapPorts(minPort, port - 1, records) + if port - 1 in records.Values then {} else {port - 1}
  }

  lemma {:induction false} GapPortsAre(minPort: int, port: int, records: map<Key, int>)
    ensures |GapPorts(minPort, port, records)| == Gap(minPort, port, records)
    ensures forall q :: q in GapPorts(minPort, port, records) <==> minPort <= q < port && q !in records.Values
    decreases port - minPort
  {
    if port > minPort {
      GapPortsAre(minPort, port - 1, records);
    }
  }

  // The least free port is nobody's record as long as there is room below.
  lemma LeastIsUnrecorded(pool: Pool, records: map<Key, int>, unrecorded: set<Key>, u: Key, port: int)
    requires Agrees(pool, records, unrecorded) && Roomy(pool.minPort, pool.maxPort, records, unrecorded)
    requires u in unrecorded && u !in pool.held && pool.minPort <= port <= pool.maxPort
    requires forall p :: pool.minPort <= p < port ==> p in pool.used
    ensures port !in records.Values
  {
    if port in records.Values {
      var r :| r in records && records[r] == port;
      var gap := GapPorts(pool.minPort, port, records);
      GapPortsAre(pool.minPort, port, records);
      forall q | q in gap
        ensures q in pool.used && pool.used[q] in unrecorded - {u}
        ensures pool.used[q] in pool.held && pool.held[pool.used[q]] == q
      {
        assert pool.minPort <= q < port;
        UsedIsHeld(pool, q);
        assert AgreesAt(pool, records, unrecorded, pool.used[q]);
      }
      InjectiveCount(pool.used, gap, unrecorded - {u});
    }
  }

  lemma AllocateAgrees(pool: Pool, records: map<Key, int>, unrecorded: set<Key>, u: Key)
    requires Agrees(pool, records, unrecorded) && Roomy(pool.minPort, pool.maxPort, records, unrecorded)
    requires Apart(records, unrecorded) && u in unrecorded
    ensures Agrees(Allocation(pool, u).0, records, unrecorded)
  {
    var after := Allocation(pool, u).0;
    ApplyMutual(pool, AllocateOp(u));
    if u !in pool.held && Allocation(pool, u).1.Some? {
      AllocateIsLeast(pool, u);
      LeastIsUnrecorded(pool, records, unrecorded, u, Allocation(pool, u).1.value);
    }
    forall j | j in after.held
      ensures AgreesAt(after, records, unrecorded, j)
    {
      if j in pool.held {
        assert AgreesAt(pool, records, unrecorded, j);
      }
    }
  }

  // Services ---------------------------------------------------------------------------------------------

  lemma ServiceAgrees(st: ServerState, svc: Service, busy: set<int>, records: map<Key, int>, unrecorded: set<Key>)
    requires Distinct(records) && Agrees(st.node.pool, records, unrecorded) && DrawnService(svc, records)
    ensures var after := RecoverService(st, svc, busy);
      && Agrees(after.node.pool, records, unrecorded) && after.node.pods == st.node.pods
      && after.node.pool.minPort == st.node.pool.minPort && after.node.pool.maxPort == st.node.pool.maxPort
  {
    if NodePort(svc) > 0 {
      ReserveAgrees(st.node.pool, records, unrecorded, svc.key);
      ReleaseAgrees(Reservation(st.node.pool, svc.key, NodePort(svc)).0, records, unrecorded, svc.key);
    }
  }

  lemma {:induction false} ServicesAgree(
    st: ServerState, svcs: seq<Service>, busy: seq<set<int>>, records: map<Key, int>, unrecorded: set<Key>)
    requires Distinct(records) && Agrees(st.node.pool, records, unrecorded) && |busy| == |svcs|
    requires forall i :: 0 <= i < |svcs| ==> DrawnService(svcs[i], records)
    ensures var after := RecoverServices(st, svcs, busy);
      && Agrees(after.node.pool, records, unrecorded) && after.node.pods == st.node.pods
      && after.node.pool.minPort == st.node.pool.minPort && after.node.pool.maxPort == st.node.pool.maxPort
    decreases |svcs|
  {
    if svcs != [] {
      ServiceAgrees(st, svcs[0], busy[0], records, unrecorded);
      ServicesAgree(RecoverService(st, svcs[0], busy[0]), svcs[1..], busy[1..], records, unrecorded);
    }
  }

  // Pods -------------------------------------------------------------------------------------------------

  // Nothing but the supply of ports stands in the way of the launch.
  predicate Relaunchable(pod: Pod, a: Attempt) {
    && a.engine.Some?
    && (pod.portAnnotation == None || a.world.containerPort != None)
    && pod.uid != ""
    && (forall i :: 0 <= i < |pod.spec.volumes| ==> VolumeGood(pod, a.world, i))
    && (|pod.spec.initContainers| == 0 || a.world.initOk)
    && a.engine.value.0 in a.world.engines && a.world.startOk
  }

  lemma RelaunchableIff(pod: Pod, engine: (string, string), a: Attempt)
    requires a.engine == Some(engine)
    ensures Relaunchable(pod, a) <==> LaterOutcome(LaunchOf(pod, engine, a.world)) == Launched
  {
    VolumesProjectIff(LaunchOf(pod, engine, a.world));
    SameRelaunchable(pod, PodStatus(Pending, [], 0), a);
  }

  // The stored status does not matter.
  lemma SameRelaunchable(pod: Pod, status: PodStatus, a: Attempt)
    ensures Relaunchable(pod.(status := status), a) <==> Relaunchable(pod, a)
  {
    var other := pod.(status := status);
    assert forall i :: 0 <= i < |pod.spec.volumes| ==> VolumeGood(other, a.world, i) == VolumeGood(pod, a.world, i);
  }

  // The pod is entered with this port and recorded as running, or nothing is entered.
  ghost predicate Relaunch(st: ServerState, after: ServerState, pod: Pod, port: int, succeeds: bool) {
    && (forall k :: k in after.node.pods <==> k in st.node.pods || (succeeds && k == pod.key))
    && (forall k :: k in st.node.pods && k != pod.key ==>
          && after.node.pods[k] == st.node.pods[k]
          && (k in st.stored ==> k in after.stored && after.stored[k] == st.stored[k]))
    && (succeeds ==>
          && WantsPort(after.node.pods[pod.key].pod) == WantsPort(pod) && after.node.pods[pod.key].hostPort == port
          && pod.key in after.stored && after.stored[pod.key].status.phase == Running
          && after.stored[pod.key].status.hostPort == (if port > 0 then port else 0))
  }

  lemma LaunchRelaunches(st: ServerState, pod: Pod, a: Attempt)
    requires pod.key !in st.node.pods
    ensures var after := AfterLaunchPod(st, pod, a);
      && (WantsPort(pod) ==> Allocation(st.node.pool, pod.key).1.Some?) ==>
           Relaunch(st, after, pod, PortFor(st.node.pool, pod).1, Relaunchable(pod, a))
  {
    match a.engine
    case None =>
    case Some(engine) =>
      RelaunchableIff(pod, engine, a);
      LaunchTable(st.node, LaunchOf(pod, engine, a.world));
  }

  // Whatever the pod gets, the others stay.
  lemma LaunchRelaunchesIf(st: ServerState, pod: Pod, a: Attempt)
    requires pod.key !in st.node.pods
    ensures var after := AfterLaunchPod(st, pod, a);
      && (forall k :: k in after.node.pods ==> k in st.node.pods || k == pod.key)
      && (forall k :: k in st.node.pods ==>
            && k in after.node.pods && after.node.pods[k] == st.node.pods[k]
            && (k in st.stored ==> k in after.stored && after.stored[k] == st.stored[k]))
  {
    match a.engine
    case None =>
    case Some(engine) => LaunchTable(st.node, LaunchOf(pod, engine, a.world));
  }

  // The pool after a launch is the one after the allocation, with the port or without it.
  lemma LaunchPool(st: ServerState, pod: Pod, a: Attempt)
    ensures var pool, after := PortFor(st.node.pool, pod).0, AfterLaunchPod(st, pod, a).node.pool;
      after == st.node.pool || after == pool || after == Released(pool, pod.key)
  {
  }

  lemma LaunchAgrees(st: ServerState, pod: Pod, a: Attempt, records: map<Key, int>, unrecorded: set<Key>)
    requires Agrees(st.node.pool, records, unrecorded) && Apart(records, unrecorded)
    requires Roomy(st.node.pool.minPort, st.node.pool.maxPort, records, unrecorded)
    requires WantsPort(pod) ==> pod.key in st.node.pool.held || pod.key in unrecorded
    ensures var after := AfterLaunchPod(st, pod, a).node.pool;
      && Agrees(after, records, unrecorded)
      && after.minPort == st.node.pool.minPort && after.maxPort == st.node.pool.maxPort
  {
    var pool := PortFor(st.node.pool, pod).0;
    if WantsPort(pod) && pod.key in unrecorded {
      AllocateAgrees(st.node.pool, records, unrecorded, pod.key);
    }
    LaunchPool(st, pod, a);
    ReleaseAgrees(pool, records, unrecorded, pod.key);
  }

  lemma StillRestored(
    st: ServerState, after: ServerState, pod: Pod, port: int, succeeds: bool, records: map<Key, int>,
    unrecorded: set<Key>)
    requires Restored(st, records, unrecorded) && pod.key !in st.node.pods
    requires Relaunch(st, after, pod, port, succeeds)
    requires if WantsPort(pod) then pod.key in records && port == records[pod.key] > 0 else port == 0
    ensures Restored(after, records, unrecorded)
  {
    forall k | k in after.node.pods && k !in unrecorded
      ensures RestoredAt(after, records, k)
    {
      if k != pod.key {
        assert RestoredAt(st, records, k);
      }
    }
  }

  lemma OthersRestored(
    st: ServerState, after: ServerState, pod: Pod, records: map<Key, int>, unrecorded: set<Key>)
    requires Restored(st, records, unrecorded) && pod.key in unrecorded
    requires forall k :: k in after.node.pods ==> k in st.node.pods || k == pod.key
    requires forall k :: k in st.node.pods ==>
               && k in after.node.pods && after.node.pods[k] == st.node.pods[k]
               && (k in st.stored ==> k in after.stored && after.stored[k] == st.stored[k])
    ensures Restored(after, records, unrecorded)
  {
    forall k | k in after.node.pods && k !in unrecorded
      ensures RestoredAt(after, records, k)
    {
      assert RestoredAt(st, records, k);
    }
  }

  // A pod is entered exactly when nothing but a port could have stopped it; one without a record may be refused.
  ghost predicate Enters(st: ServerState, after: ServerState, pod: Pod, a: Attempt, unrecorded: set<Key>) {
    && (forall k :: k !in unrecorded ==>
          (k in after.node.pods <==>
             k in st.node.pods || (Recoverable(pod) && Relaunchable(pod, a) && k == pod.key)))
    && (forall k :: k in after.node.pods ==> k in st.node.pods || k == pod.key)
  }

  lemma RecordedLaunch(st: ServerState, pod: Pod, a: Attempt, records: map<Key, int>, unrecorded: set<Key>)
    requires PortRecords(records) && Agrees(st.node.pool, records, unrecorded)
    requires Restored(st, records, unrecorded) && Recoverable(pod)
    requires pod.key !in st.node.pods && (WantsPort(pod) ==> pod.key in records && pod.key in st.node.pool.held)
    ensures var after := AfterLaunchPod(st, pod, a);
      Restored(after, records, unrecorded) && Enters(st, after, pod, a, unrecorded)
  {
    var port := PortFor(st.node.pool, pod).1;
    if WantsPort(pod) {
      assert AgreesAt(st.node.pool, records, unrecorded, pod.key);
    }
    LaunchRelaunches(st, pod, a);
    StillRestored(st, AfterLaunchPod(st, pod, a), pod, port, Relaunchable(pod, a), records, unrecorded);
  }

  lemma PodRestores(st: ServerState, pod: Pod, a: Attempt, records: map<Key, int>, unrecorded: set<Key>)
    requires PortRecords(records) && Distinct(records) && Apart(records, unrecorded)
    requires Roomy(st.node.pool.minPort, st.node.pool.maxPort, records, unrecorded)
    requires Agrees(st.node.pool, records, unrecorded) && Restored(st, records, unrecorded)
    requires DrawnPod(pod, records, unrecorded) && pod.key !in st.node.pods
    ensures var after := RecoverPod(st, pod, a);
      && Agrees(after.node.pool, records, unrecorded) && Restored(after, records, unrecorded)
      && Enters(st, after, pod, a, unrecorded)
      && after.node.pool.minPort == st.node.pool.minPort && after.node.pool.maxPort == st.node.pool.maxPort
  {
    if Recoverable(pod) {
      var st' := Reserved(st, pod.key, pod.status.hostPort);
      if pod.status.hostPort > 0 {
        ReserveAgrees(st.node.pool, records, unrecorded, pod.key);
      }
      SameTable(st, st', records, unrecorded);
      LaunchAgrees(st', pod, a, records, unrecorded);
      if WantsPort(pod) && pod.status.hostPort <= 0 {
        LaunchRelaunchesIf(st', pod, a);
        OthersRestored(st', AfterLaunchPod(st', pod, a), pod, records, unrecorded);
      } else {
        RecordedLaunch(st', pod, a, records, unrecorded);
      }
    }
  }

  lemma SameTable(st: ServerState, st': ServerState, records: map<Key, int>, unrecorded: set<Key>)
    requires Restored(st, records, unrecorded) && st'.node.pods == st.node.pods && st'.stored == st.stored
    ensures Restored(st', records, unrecorded)
  {
    forall k | k in st'.node.pods && k !in unrecorded
      ensures RestoredAt(st', records, k)
    {
      assert RestoredAt(st, records, k);
    }
  }

  // The pods of the list are drawn from the records, different from each other, and not yet managed.
  ghost predicate Startable(
    st: ServerState, list: seq<Pod>, attempts: map<Key, Attempt>, records: map<Key, int>, unrecorded: set<Key>)
  {
    && (forall i :: 0 <= i < |list| ==>
          list[i].key in attempts && DrawnPod(list[i], records, unrecorded) && list[i].key !in st.node.pods)
    && (forall i, j :: 0 <= i < j < |list| ==> list[i].key != list[j].key)
  }

  lemma RestStartable(
    st: ServerState, next: ServerState, list: seq<Pod>, attempts: map<Key, Attempt>, records: map<Key, int>,
    unrecorded: set<Key>)
    requires list != [] && Startable(st, list, attempts, records, unrecorded)
    requires Enters(st, next, list[0], attempts[list[0].key], unrecorded)
    ensures Startable(next, list[1..], attempts, records, unrecorded)
  {
  }

  lemma {:induction false} PodsRestore(
    st: ServerState, list: seq<Pod>, attempts: map<Key, Attempt>, records: map<Key, int>, unrecorded: set<Key>)
    requires PortRecords(records) && Distinct(records) && Apart(records, unrecorded)
    requires Roomy(st.node.pool.minPort, st.node.pool.maxPort, records, unrecorded)
    requires Agrees(st.node.pool, records, unrecorded) && Restored(st, records, unrecorded)
    requires Startable(st, list, attempts, records, unrecorded)
    ensures Restored(RecoverPods(st, list, attempts), records, unrecorded)
    decreases |list|
  {
    if list != [] {
      var next := RecoverPod(st, list[0], attempts[list[0].key]);
      PodRestores(st, list[0], attempts[list[0].key], records, unrecorded);
      RestStartable(st, next, list, attempts, records, unrecorded);
      PodsRestore(next, list[1..], attempts, records, unrecorded);
    }
  }

  ghost predicate IsRelaunched(list: seq<Pod>, attempts: map<Key, Attempt>, k: Key) {
    k in attempts
    && exists i ::
         && 0 <= i < |list| && list[i].key == k
         && (list[i].status.phase == Running || list[i].status.phase == Pending)
         && Relaunchable(list[i], attempts[k])
  }

  lemma IsRelaunchedSplit(list: seq<Pod>, attempts: map<Key, Attempt>, k: Key)
    requires list != [] && list[0].key in attempts
    ensures IsRelaunched(list, attempts, k) <==>
              || IsRelaunched(list[1..], attempts, k)
              || (list[0].key == k && Recoverable(list[0]) && Relaunchable(list[0], attempts[k]))
  {
    if IsRelaunched(list[1..], attempts, k) {
      var i :| 0 <= i < |list[1..]| && list[1..][i].key == k && Recoverable(list[1..][i])
               && Relaunchable(list[1..][i], attempts[k]);
      assert list[i + 1].key == k;
    }
  }

  lemma {:induction false} RelaunchedExactly(
    st: ServerState, list: seq<Pod>, attempts: map<Key, Attempt>, records: map<Key, int>, unrecorded: set<Key>,
    k: Key)
    requires PortRecords(records) && Distinct(records) && Apart(records, unrecorded)
    requires Roomy(st.node.pool.minPort, st.node.pool.maxPort, records, unrecorded)
    requires Agrees(st.node.pool, records, unrecorded) && Restored(st, records, unrecorded)
    requires Startable(st, list, attempts, records, unrecorded) && k !in unrecorded
    ensures k in RecoverPods(st, list, attempts).node.pods <==>
              k in st.node.pods || IsRelaunched(list, attempts, k)
    decreases |list|
  {
    if list != [] {
      var next := RecoverPod(st, list[0], attempts[list[0].key]);
      PodRestores(st, list[0], attempts[list[0].key], records, unrecorded);
      RestStartable(st, next, list, attempts, records, unrecorded);
      RelaunchedExactly(next, list[1..], attempts, records, unrecorded, k);
      IsRelaunchedSplit(list, attempts, k);
    }
  }

  // The theorem ------------------------------------------------------------------------------------------

  // One restart: the server's state, the services with the ports they cannot bind, the pods with what becomes of
  // their launches, in any order.
  datatype Restart = Restart(
    st: ServerState, svcs: seq<Service>, busy: seq<set<int>>, list: seq<Pod>, attempts: map<Key, Attempt>)

  // An empty pool, nothing managed, and services and pods with these records.
  ghost predicate Admissible(
    r: Restart, minPort: int, maxPort: int, records: map<Key, int>, unrecorded: set<Key>)
  {
    && r.st.node.pool == EmptyPool(minPort, maxPort) && r.st.node.pods == map[] && |r.busy| == |r.svcs|
    && (forall i :: 0 <= i < |r.svcs| ==> DrawnService(r.svcs[i], records))
    && Startable(r.st, r.list, r.attempts, records, unrecorded)
  }

  function Restarted(r: Restart): ServerState
    requires |r.busy| == |r.svcs|
    requires forall i :: 0 <= i < |r.list| ==> r.list[i].key in r.attempts
  {
    RecoverPods(RecoverServices(r.st, r.svcs, r.busy), r.list, r.attempts)
  }

  // The pods relaunched are exactly those that nothing but a port could have stopped, and each that needs a port
  // has its recorded one.  Nothing is said of pods without a record.
  ghost predicate RestoresAll(after: ServerState, r: Restart, records: map<Key, int>, unrecorded: set<Key>) {
    && Restored(after, records, unrecorded)
    && (forall k :: k !in unrecorded ==> (k in after.node.pods <==> IsRelaunched(r.list, r.attempts, k)))
  }

  lemma RecoveryRestoresPorts(
    r: Restart, minPort: int, maxPort: int, records: map<Key, int>, unrecorded: set<Key>)
    requires PortRecords(records) && Apart(records, unrecorded)
    requires Distinct(records) && Roomy(minPort, maxPort, records, unrecorded)
    requires Admissible(r, minPort, maxPort, records, unrecorded)
    ensures RestoresAll(Restarted(r), r, records, unrecorded)
  {
    ServicesAgree(r.st, r.svcs, r.busy, records, unrecorded);
    var started := RecoverServices(r.st, r.svcs, r.busy);
    PodsRestore(started, r.list, r.attempts, records, unrecorded);
    forall k | k !in unrecorded
      ensures k in RecoverPods(started, r.list, r.attempts).node.pods <==> IsRelaunched(r.list, r.attempts, k)
    {
      RelaunchedExactly(started, r.list, r.attempts, records, unrecorded, k);
    }
  }

  ghost predicate AlwaysRestores(minPort: int, maxPort: int, records: map<Key, int>, unrecorded: set<Key>) {
    forall r :: Admissible(r, minPort, maxPort, records, unrecorded) ==>
      RestoresAll(Restarted(r), r, records, unrecorded)
  }

  // Over every restart with these records, ports are restored exactly when no two records are the same and there is
  // room below the recorded ports for the pods that have none; so, in particular, when every pod has a record.
  lemma RestoresIff(minPort: int, maxPort: int, records: map<Key, int>, unrecorded: set<Key>)
    requires 0 < minPort && PortRecords(records) && Apart(records, unrecorded)
    ensures AlwaysRestores(minPort, maxPort, records, unrecorded) <==>
              Distinct(records) && Roomy(minPort, maxPort, records, unrecorded)
  {
    if !Distinct(records) {
      var r := SharedRecord(minPort, maxPort, records, unrecorded);
    } else if !Roomy(minPort, maxPort, records, unrecorded) {
      var r := NoRoom(minPort, maxPort, records, unrecorded);
    } else {
      forall r | Admissible(r, minPort, maxPort, records, unrecorded)
        ensures RestoresAll(Restarted(r), r, records, unrecorded)
      {
        RecoveryRestoresPorts(r, minPort, maxPort, records, unrecorded);
      }
    }
  }

  // Failures ---------------------------------------------------------------------------------------------

  // A pod with a container port.
  function PortPod(k: Key, hostPort: int): Pod {
    var spec := PodSpec([Container("c", "c", [80])], [], "", []);
    Pod(k, "u", map[], Unowned, None, spec, PodStatus(Pending, [], hostPort))
  }

  function CalmFor(keys: set<Key>): map<Key, Attempt> {
    map k | k in keys :: CALM
  }

  lemma CalmLaunches(st: ServerState, pod: Pod)
    requires pod == PortPod(pod.key, pod.status.hostPort) && pod.key !in st.node.pods
    ensures Recoverable(pod) && WantsPort(pod) && Relaunchable(pod, CALM)
    ensures var pool, after := Reserved(st, pod.key, pod.status.hostPort).node.pool, RecoverPod(st, pod, CALM);
      && after.node.pool == Allocation(pool, pod.key).0
      && (match Allocation(pool, pod.key).1
          case None => after.node.pods == st.node.pods
          case Some(port) =>
            && (forall k :: k in after.node.pods <==> k in st.node.pods || k == pod.key)
            && after.node.pods[pod.key].hostPort == port && WantsPort(after.node.pods[pod.key].pod))
  {
    var st' := Reserved(st, pod.key, pod.status.hostPort);
    var l := LaunchOf(pod, CALM.engine.value, CALM.world);
    assert LaterOutcome(l) == Launched;
    LaunchTable(st'.node, l);
  }

  // A pod without a record takes the least free port.
  lemma {:induction false} TakesLeast(st: ServerState, u: Key, port: int)
    requires u !in st.node.pods && u !in st.node.pool.held
    requires FreeFrom(st.node.pool, st.node.pool.minPort) == Some(port)
    ensures var after := RecoverPod(st, PortPod(u, 0), CALM);
      && after.node.pool == Bind(st.node.pool, u, port)
      && (forall k :: k in after.node.pods <==> k in st.node.pods || k == u)
      && after.node.pods[u].hostPort == port
  {
    CalmLaunches(st, PortPod(u, 0));
  }

  // A pod whose recorded port is free gets it.
  lemma TakesRecorded(st: ServerState, k: Key, port: int)
    requires k !in st.node.pods && k !in st.node.pool.held && port > 0 && port !in st.node.pool.used
    ensures var after := RecoverPod(st, PortPod(k, port), CALM);
      && after.node.pool == Bind(st.node.pool, k, port)
      && (forall j :: j in after.node.pods <==> j in st.node.pods || j == k)
  {
    CalmLaunches(st, PortPod(k, port));
  }

  // A pod whose recorded port is somebody else's does not.
  lemma MissesRecorded(st: ServerState, k: Key, port: int)
    requires k !in st.node.pods && k !in st.node.pool.held && port > 0
    requires port in st.node.pool.used && st.node.pool.used[port] != k
    ensures var after := RecoverPod(st, PortPod(k, port), CALM);
      k in after.node.pods ==> after.node.pods[k].hostPort != port
  {
    CalmLaunches(st, PortPod(k, port));
    FreeFromIsFree(st.node.pool, st.node.pool.minPort);
  }

  lemma {:induction false} RecoverOneMore(st: ServerState, list: seq<Pod>, pod: Pod, attempts: map<Key, Attempt>)
    requires forall i :: 0 <= i < |list| ==> list[i].key in attempts
    requires pod.key in attempts
    ensures RecoverPods(st, list + [pod], attempts) ==
            RecoverPod(RecoverPods(st, list, attempts), pod, attempts[pod.key])
    decreases |list|
  {
    if list == [] {
      assert [pod][1..] == [];
      assert RecoverPods(RecoverPod(st, pod, attempts[pod.key]), [], attempts)
          == RecoverPod(st, pod, attempts[pod.key]);
    } else {
      assert (list + [pod])[1..] == list[1..] + [pod];
      RecoverOneMore(RecoverPod(st, list[0], attempts[list[0].key]), list[1..], pod, attempts);
    }
  }

  // A restart with no services, in which all goes well.
  function CalmRestart(minPort: int, maxPort: int, list: seq<Pod>, keys: set<Key>): Restart {
    Restart(EmptyServer(minPort, maxPort), [], [], list, CalmFor(keys))
  }

  // The last pod of the list misses its record.
  lemma {:induction false} LastMisses(
    r: Restart, list: seq<Pod>, k: Key, port: int, records: map<Key, int>, unrecorded: set<Key>)
    requires forall i :: 0 <= i < |list| ==> list[i].key in r.attempts
    requires k in r.attempts && r.attempts[k] == CALM && r.svcs == [] && r.busy == []
    requires r.list == list + [PortPod(k, port)] && k in records && k !in unrecorded && records[k] == port > 0
    requires var before := RecoverPods(r.st, list, r.attempts);
      && k !in before.node.pods && k !in before.node.pool.held
      && port in before.node.pool.used && before.node.pool.used[port] != k
    ensures !RestoresAll(Restarted(r), r, records, unrecorded)
  {
    var before, pod := RecoverPods(r.st, list, r.attempts), PortPod(k, port);
    RecoverOneMore(r.st, list, pod, r.attempts);
    MissesRecorded(before, k, port);
    CalmLaunches(before, pod);
    assert r.list[|list|] == pod;
    assert IsRelaunched(r.list, r.attempts, k);
    if k in Restarted(r).node.pods {
      assert !RestoredAt(Restarted(r), records, k);
    }
  }

  // Of two keys with the same record, the second misses it.
  lemma SharedRecord(minPort: int, maxPort: int, records: map<Key, int>, unrecorded: set<Key>) returns (r: Restart)
    requires PortRecords(records) && Apart(records, unrecorded) && !Distinct(records)
    ensures Admissible(r, minPort, maxPort, records, unrecorded)
    ensures !RestoresAll(Restarted(r), r, records, unrecorded)
  {
    var k, j :| k in records && j in records && k != j && records[k] == records[j];
    var port := records[k];
    var list := [PortPod(k, port)];
    r := CalmRestart(minPort, maxPort, list + [PortPod(j, port)], {k, j});
    RecoverOneMore(r.st, [], PortPod(k, port), r.attempts);
    assert [] + [PortPod(k, port)] == list;
    TakesRecorded(r.st, k, port);
    LastMisses(r, list, j, port, records, unrecorded);
  }

  // Pods that fill the range from below: recorded ones where the port is recorded, others where it is not.
  predicate Filler(k: Key, taken: set<Key>, port: int, records: map<Key, int>) {
    k in taken || (k in records && records[k] < port)
  }

  ghost predicate FillerList(
    list: seq<Pod>, taken: set<Key>, port: int, records: map<Key, int>, unrecorded: set<Key>)
  {
    && (forall i :: 0 <= i < |list| ==>
          Filler(list[i].key, taken, port, records) && DrawnPod(list[i], records, unrecorded))
    && (forall i, j :: 0 <= i < j < |list| ==> list[i].key != list[j].key)
  }

  // Exactly the ports below the given one are used, and only fillers are managed or hold one.
  ghost predicate FilledTo(
    st: ServerState, taken: set<Key>, minPort: int, maxPort: int, port: int, records: map<Key, int>)
  {
    && st.node.pool.minPort == minPort && st.node.pool.maxPort == maxPort
    && (forall p :: p in st.node.pool.used <==> minPort <= p < port)
    && (forall k :: k in st.node.pods ==> Filler(k, taken, port, records))
    && (forall k :: k in st.node.pool.held ==> Filler(k, taken, port, records))
  }

  // When exactly the ports below one are used, that one is the least free.
  lemma {:induction false} LeastFree(pool: Pool, from: int, port: int)
    requires from <= port <= pool.maxPort && port !in pool.used
    requires forall p :: from <= p < port ==> p in pool.used
    ensures FreeFrom(pool, from) == Some(port)
    decreases port - from
  {
    if from < port {
      LeastFree(pool, from + 1, port);
    }
  }

  // One more filler: one with the port as its record, or one without a record.
  function FillerPod(k: Key, port: int, records: map<Key, int>): Pod {
    PortPod(k, if port in records.Values then port else 0)
  }

  function TakenWith(taken: set<Key>, k: Key, port: int, records: map<Key, int>): set<Key> {
    if port in records.Values then taken else taken + {k}
  }

  ghost predicate Fits(k: Key, taken: set<Key>, port: int, records: map<Key, int>, unrecorded: set<Key>) {
    if port in records.Values then k in records && records[k] == port else k in unrecorded - taken
  }

  lemma FilledOneMore(
    st: ServerState, taken: set<Key>, k: Key, minPort: int, maxPort: int, port: int, records: map<Key, int>,
    unrecorded: set<Key>)
    requires 0 < minPort <= port <= maxPort && Apart(records, unrecorded) && taken <= unrecorded
    requires FilledTo(st, taken, minPort, maxPort, port, records) && Fits(k, taken, port, records, unrecorded)
    ensures FilledTo(RecoverPod(st, FillerPod(k, port, records), CALM), TakenWith(taken, k, port, records),
                     minPort, maxPort, port + 1, records)
  {
    assert !Filler(k, taken, port, records);
    if port in records.Values {
      TakesRecorded(st, k, port);
    } else {
      LeastFree(st.node.pool, minPort, port);
      TakesLeast(st, k, port);
    }
    BoundFilled(st, RecoverPod(st, FillerPod(k, port, records), CALM), taken, k, minPort, maxPort, port, records);
  }

  lemma BoundFilled(
    st: ServerState, after: ServerState, taken: set<Key>, k: Key, minPort: int, maxPort: int, port: int,
    records: map<Key, int>)
    requires minPort <= port && FilledTo(st, taken, minPort, maxPort, port, records)
    requires port in records.Values ==> k in records && records[k] == port
    requires after.node.pool == Bind(st.node.pool, k, port)
    requires forall j :: j in after.node.pods <==> j in st.node.pods || j == k
    ensures FilledTo(after, TakenWith(taken, k, port, records), minPort, maxPort, port + 1, records)
  {
  }

  lemma ListOneMoreFiller(
    list: seq<Pod>, taken: set<Key>, k: Key, port: int, records: map<Key, int>, unrecorded: set<Key>)
    requires 0 < port && Apart(records, unrecorded) && taken <= unrecorded
    requires FillerList(list, taken, port, records, unrecorded) && Fits(k, taken, port, records, unrecorded)
    ensures FillerList(list + [FillerPod(k, port, records)], TakenWith(taken, k, port, records), port + 1, records,
                       unrecorded)
  {
    assert !Filler(k, taken, port, records);
  }

  lemma {:induction false} TakenOneMore(
    taken: set<Key>, k: Key, minPort: int, port: int, records: map<Key, int>, unrecorded: set<Key>)
    requires minPort <= port && taken <= unrecorded && |taken| == Gap(minPort, port, records)
    requires Fits(k, taken, port, records, unrecorded)
    ensures TakenWith(taken, k, port, records) <= unrecorded
    ensures |TakenWith(taken, k, port, records)| == Gap(minPort, port + 1, records)
  {
  }

  // st is what the pods of the list make of an empty server, one after the other.
  ghost predicate Reaches(minPort: int, maxPort: int, list: seq<Pod>, states: seq<ServerState>) {
    && |states| == |list| + 1 && states[0] == EmptyServer(minPort, maxPort)
    && forall i :: 0 <= i < |list| ==> IsNext(states[i], list[i], states[i + 1])
  }

  ghost predicate IsNext(st: ServerState, pod: Pod, next: ServerState) {
    next == RecoverPod(st, pod, CALM)
  }

  lemma ReachesOneMore(
    minPort: int, maxPort: int, list: seq<Pod>, states: seq<ServerState>, pod: Pod, next: ServerState)
    requires Reaches(minPort, maxPort, list, states) && next == RecoverPod(states[|list|], pod, CALM)
    ensures Reaches(minPort, maxPort, list + [pod], states + [next])
  {
    forall i | 0 <= i < |list| + 1
      ensures IsNext((states + [next])[i], (list + [pod])[i], (states + [next])[i + 1])
    {
      if i < |list| {
        assert IsNext(states[i], list[i], states[i + 1]);
      }
    }
  }

  lemma {:induction false} ReachesIs(
    minPort: int, maxPort: int, list: seq<Pod>, states: seq<ServerState>, attempts: map<Key, Attempt>, n: nat)
    requires Reaches(minPort, maxPort, list, states) && n <= |list|
    requires forall i :: 0 <= i < |list| ==> list[i].key in attempts && attempts[list[i].key] == CALM
    ensures RecoverPods(EmptyServer(minPort, maxPort), list[..n], attempts) == states[n]
  {
    if n > 0 {
      ReachesIs(minPort, maxPort, list, states, attempts, n - 1);
      assert IsNext(states[n - 1], list[n - 1], states[n]);
      assert list[..n] == list[..n - 1] + [list[n - 1]];
      RecoverOneMore(EmptyServer(minPort, maxPort), list[..n - 1], list[n - 1], attempts);
    }
  }

  lemma NextFiller(
    taken: set<Key>, port: int, records: map<Key, int>, unrecorded: set<Key>)
    returns (k: Key)
    requires taken <= unrecorded && (port !in records.Values ==> |taken| < |unrecorded|)
    ensures Fits(k, taken, port, records, unrecorded) && k in records.Keys + unrecorded
  {
    if port in records.Values {
      k :| k in records && records[k] == port;
    } else {
      k := OneLeft(taken, unrecorded);
    }
  }

  // A way to fill the range up to a port: the pods, those of them without a record, and the states on the way.
  datatype Filling = Filling(list: seq<Pod>, taken: set<Key>, states: seq<ServerState>)

  ghost predicate FillsTo(
    f: Filling, minPort: int, maxPort: int, port: int, records: map<Key, int>, unrecorded: set<Key>)
  {
    && f.taken <= unrecorded && |f.taken| == Gap(minPort, port, records)
    && FillerList(f.list, f.taken, port, records, unrecorded)
    && Reaches(minPort, maxPort, f.list, f.states)
    && FilledTo(f.states[|f.list|], f.taken, minPort, maxPort, port, records)
  }

  lemma FillNothing(minPort: int, maxPort: int, records: map<Key, int>, unrecorded: set<Key>)
    returns (f: Filling)
    ensures FillsTo(f, minPort, maxPort, minPort, records, unrecorded)
  {
    f := Filling([], {}, [EmptyServer(minPort, maxPort)]);
  }

  lemma {:induction false} FillNext(
    f: Filling, minPort: int, maxPort: int, port: int, next: int, records: map<Key, int>, unrecorded: set<Key>)
    returns (f': Filling)
    requires 0 < minPort <= port <= maxPort && Apart(records, unrecorded) && next == port + 1
    requires FillsTo(f, minPort, maxPort, port, records, unrecorded)
    requires port !in records.Values ==> Gap(minPort, port, records) < |unrecorded|
    ensures FillsTo(f', minPort, maxPort, next, records, unrecorded)
  {
    var k := NextFiller(f.taken, port, records, unrecorded);
    var pod, st := FillerPod(k, port, records), f.states[|f.list|];
    var st' := RecoverPod(st, pod, CALM);
    TakenOneMore(f.taken, k, minPort, port, records, unrecorded);
    ListOneMoreFiller(f.list, f.taken, k, port, records, unrecorded);
    FilledOneMore(st, f.taken, k, minPort, maxPort, port, records, unrecorded);
    ReachesOneMore(minPort, maxPort, f.list, f.states, pod, st');
    f' := Filling(f.list + [pod], TakenWith(f.taken, k, port, records), f.states + [st']);
  }

  lemma {:induction false} RoomBelow(minPort: int, port: int, records: map<Key, int>, unrecorded: set<Key>)
    requires minPort < port && Gap(minPort, port, records) <= |unrecorded|
    ensures Gap(minPort, port - 1, records) <= |unrecorded|
    ensures port - 1 !in records.Values ==> Gap(minPort, port - 1, records) < |unrecorded|
  {
  }

  lemma {:induction false} Fill(minPort: int, maxPort: int, port: int, records: map<Key, int>, unrecorded: set<Key>)
    returns (f: Filling)
    requires 0 < minPort <= port <= maxPort + 1 && Apart(records, unrecorded)
    requires Gap(minPort, port, records) <= |unrecorded|
    ensures FillsTo(f, minPort, maxPort, port, records, unrecorded)
    decreases port - minPort
  {
    if port == minPort {
      f := FillNothing(minPort, maxPort, records, unrecorded);
    } else {
      RoomBelow(minPort, port, records, unrecorded);
      f := Fill(minPort, maxPort, port - 1, records, unrecorded);
      f := FillNext(f, minPort, maxPort, port - 1, port, records, unrecorded);
    }
  }

  lemma OneLeft(part: set<Key>, all: set<Key>) returns (k: Key)
    requires part <= all && |part| < |all|
    ensures k in all - part
  {
    SubsetIffAsMany(part, all);
    k :| k in all && k !in part;
  }

  // When the ports below a recorded one run out, a pod without a record takes it.
  lemma NoRoom(minPort: int, maxPort: int, records: map<Key, int>, unrecorded: set<Key>) returns (r: Restart)
    requires 0 < minPort && PortRecords(records) && Apart(records, unrecorded)
    requires Distinct(records) && !Roomy(minPort, maxPort, records, unrecorded)
    ensures Admissible(r, minPort, maxPort, records, unrecorded)
    ensures !RestoresAll(Restarted(r), r, records, unrecorded)
  {
    var k :| k in records && minPort <= records[k] <= maxPort
             && |unrecorded| > Gap(minPort, records[k], records);
    var port := records[k];
    var f := Fill(minPort, maxPort, port, records, unrecorded);
    var u := OneLeft(f.taken, unrecorded);
    r := LastTaken(minPort, maxPort, f, u, k, records, unrecorded);
  }

  lemma LastTaken(
    minPort: int, maxPort: int, f: Filling, u: Key, k: Key, records: map<Key, int>, unrecorded: set<Key>)
    returns (r: Restart)
    requires 0 < minPort && PortRecords(records) && Apart(records, unrecorded)
    requires k in records && minPort <= records[k] <= maxPort && u in unrecorded - f.taken
    requires FillsTo(f, minPort, maxPort, records[k], records, unrecorded)
    ensures Admissible(r, minPort, maxPort, records, unrecorded)
    ensures !RestoresAll(Restarted(r), r, records, unrecorded)
  {
    var keys, port, st := records.Keys + unrecorded, records[k], f.states[|f.list|];
    var pod, most := PortPod(u, 0), f.list + [PortPod(u, 0)];
    r := CalmRestart(minPort, maxPort, most + [PortPod(k, port)], keys);
    LastTwoDrawn(f.list, f.taken, u, k, records, unrecorded);
    assert !Filler(u, f.taken, port, records) && !Filler(k, f.taken, port, records);
    LeastFree(st.node.pool, minPort, port);
    TakesLeast(st, u, port);
    var st' := RecoverPod(st, pod, CALM);
    ReachesOneMore(minPort, maxPort, f.list, f.states, pod, st');
    LastState(minPort, maxPort, most, f.states + [st'], keys, k, port);
    LastMisses(r, most, k, port, records, unrecorded);
  }

  lemma {:induction false} LastState(
    minPort: int, maxPort: int, most: seq<Pod>, states: seq<ServerState>, keys: set<Key>, k: Key, port: int)
    requires Reaches(minPort, maxPort, most, states)
    requires forall i :: 0 <= i < |most| + 1 ==> (most + [PortPod(k, port)])[i].key in keys
    ensures forall i :: 0 <= i < |most| ==> most[i].key in keys
    ensures RecoverPods(EmptyServer(minPort, maxPort), most, CalmFor(keys)) == states[|most|]
  {
    forall i | 0 <= i < |most|
      ensures most[i].key in keys
    {
      assert (most + [PortPod(k, port)])[i] == most[i];
    }
    ReachesIs(minPort, maxPort, most, states, CalmFor(keys), |most|);
    assert most[..|most|] == most;
  }

  lemma LastTwoDrawn(
    list: seq<Pod>, taken: set<Key>, u: Key, k: Key, records: map<Key, int>, unrecorded: set<Key>)
    requires Apart(records, unrecorded) && PortRecords(records) && taken <= unrecorded
    requires k in records && u in unrecorded - taken
    requires FillerList(list, taken, records[k], records, unrecorded)
    ensures var all := list + [PortPod(u, 0)] + [PortPod(k, records[k])];
      && (forall i :: 0 <= i < |all| ==>
            DrawnPod(all[i], records, unrecorded) && all[i].key in records.Keys + unrecorded)
      && (forall i, j :: 0 <= i < j < |all| ==> all[i].key != all[j].key)
  {
    assert !Filler(u, taken, records[k], records) && !Filler(k, taken, records[k], records);
  }

  // Where such records come from ---------------------------------------------------------------------------

  // A running pod with container ports is stored with the port it holds, so the program leaves none unrecorded.
  lemma LaunchRecordsPort(st: ServerState, pod: Pod, a: Attempt)
    requires Faithful(st.node.pool) && Positive(st.node.pool) && pod.key !in st.node.pods && WantsPort(pod)
    requires pod.key in AfterLaunchPod(st, pod, a).node.pods
    ensures var after := AfterLaunchPod(st, pod, a);
      && after.stored[pod.key].status.phase == Running
      && after.stored[pod.key].status.hostPort == after.node.pods[pod.key].hostPort > 0
      && HeldBy(after.node.pool, pod.key) == Some(after.stored[pod.key].status.hostPort)
  {
    PositivePort(st.node.pool, pod.key);
    match a.engine
    case None =>
    case Some(engine) => LaunchTable(st.node, LaunchOf(pod, engine, a.world));
  }

  // Records do collide: a service that binds the port it asks for does so beside the pool, which then gives the
  // same port to a pod; both record it, and after a restart the pod is on another one.
  lemma {:induction false} BoundPortIsShared(minPort: int, maxPort: int, s: Key, k: Key)
    requires 0 < minPort < maxPort && s != k
    ensures var svc, empty := Service(s, [ServicePort(minPort, 0)]), EmptyPool(minPort, maxPort);
      var (proxies, bound) := Started(Proxies(empty, map[]), svc, {});
      && bound == Some(minPort) && Allocation(proxies.pool, k).1 == Some(minPort)
    ensures var svc := Service(s, [ServicePort(minPort, minPort)]);
      var started := RecoverServices(EmptyServer(minPort, maxPort), [svc], [{}]);
      var after := RecoverPods(started, [PortPod(k, minPort)], map[k := CALM]);
      k in after.node.pods && after.node.pods[k].hostPort == minPort + 1
  {
    var svc := Service(s, [ServicePort(minPort, minPort)]);
    var empty := EmptyServer(minPort, maxPort);
    var st := RecoverService(empty, svc, {});
    var pod := PortPod(k, minPort);
    assert RecoverServices(empty, [svc], [{}]) == RecoverServices(st, [svc][1..], [{}][1..]) == st;
    assert st.node.pool == Bind(EmptyPool(minPort, maxPort), s, minPort);
    assert Reserved(st, k, minPort) == st;
    LeastFree(st.node.pool, minPort, minPort + 1);
    CalmLaunches(st, pod);
    assert RecoverPods(st, [pod], map[k := CALM]) == RecoverPods(RecoverPod(st, pod, CALM), [pod][1..], map[k := CALM])
        == RecoverPod(st, pod, CALM);
  }

  // The same for a pod that has no record.
  lemma {:induction false} UnrecordedPodTakesPort(minPort: int, maxPort: int, k: Key, j: Key)
    requires 0 < minPort < maxPort && k != j
    ensures var after := RecoverPods(
              EmptyServer(minPort, maxPort), [PortPod(k, 0), PortPod(j, minPort)], map[k := CALM, j := CALM]);
      j in after.node.pods && after.node.pods[j].hostPort == minPort + 1
  {
    var attempts, empty := map[k := CALM, j := CALM], EmptyServer(minPort, maxPort);
    var st := RecoverPod(empty, PortPod(k, 0), CALM);
    LeastFree(empty.node.pool, minPort, minPort);
    TakesLeast(empty, k, minPort);
    assert Reserved(st, j, minPort) == st;
    LeastFree(st.node.pool, minPort, minPort + 1);
    CalmLaunches(st, PortPod(j, minPort));
    RecoverOneMore(empty, [], PortPod(k, 0), attempts);
    assert [] + [PortPod(k, 0)] == [PortPod(k, 0)];
    RecoverOneMore(empty, [PortPod(k, 0)], PortPod(j, minPort), attempts);
    assert [PortPod(k, 0)] + [PortPod(j, minPort)] == [PortPod(k, 0), PortPod(j, minPort)];
  }
}
