// What recovery does to services and to the conservation of ports (api/server.go, service/proxy.go).
module RecoveryConservation {
  import opened ApiServer
  import opened ApiTypes
  import opened Lifecycle
  import opened PortConservation
  import opened Ports
  import opened Recovery
  import opened ServiceProxy

  // The port the service asks for can be bound, so no port of the pool is tried.
  predicate BindsRequested(svc: Service, busy: set<int>) {
    |svc.ports| > 0 && svc.ports[0].port > 0 && svc.ports[0].port !in busy
  }

  predicate TakenByOther(pool: Pool, port: int, key: Key) {
    port in pool.used && pool.used[port] != key
  }

  // A recovered service listens on its recorded port exactly when it asks for that one, or, if it cannot have the one
  // it asks for, when nobody else has the recorded one.
  lemma ServiceListensIff(st: ServerState, svc: Service, busy: set<int>)
    requires Mutual(st.node.pool) && NodePort(svc) > 0 && svc.key !in st.live
    ensures var after := RecoverService(st, svc, busy);
      (svc.key in after.live && after.live[svc.key] == NodePort(svc)) <==>
        if BindsRequested(svc, busy) then svc.ports[0].port == NodePort(svc)
        else NodePort(svc) !in busy && !TakenByOther(st.node.pool, NodePort(svc), svc.key)
  {
    var pool := st.node.pool;
    if NodePort(svc) in pool.used {
      UsedIsHeld(pool, NodePort(svc));
    }
    FreeFromIsFree(pool, pool.minPort);
  }

  // Conservation, key by key -----------------------------------------------------------------------------

  predicate KeyFine(st: ServerState, k: Key) {
    var held := HeldBy(st.node.pool, k);
    && (k in st.node.pods && st.node.pods[k].hostPort > 0 ==> held == Some(st.node.pods[k].hostPort))
    && (held.Some? ==>
          || (k in st.node.pods && st.node.pods[k].hostPort == held.value)
          || (k in st.live && st.live[k] == held.value))
  }

  ghost predicate AllFine(st: ServerState) {
    forall k :: KeyFine(st, k)
  }

  lemma ConservedIffFine(st: ServerState)
    requires Mutual(st.node.pool) && Positive(st.node.pool)
    ensures Conserved(System(st.node, st.live)) <==> AllFine(st)
  {
    var s := System(st.node, st.live);
    if Conserved(s) {
      forall k
        ensures KeyFine(st, k)
      {
      }
    }
    if AllFine(st) {
      forall k | k in st.node.pods && st.node.pods[k].hostPort > 0
        ensures k in st.node.pool.held && st.node.pool.held[k] == st.node.pods[k].hostPort
      {
        assert KeyFine(st, k);
      }
      forall k | k in st.node.pool.held
        ensures || (k in st.node.pods && st.node.pods[k].hostPort == st.node.pool.held[k])
                || (k in st.live && st.live[k] == st.node.pool.held[k])
      {
        assert KeyFine(st, k);
      }
    }
  }

  ghost predicate Untouched(st: ServerState, k: Key) {
    k !in st.node.pool.held && k !in st.live && k !in st.node.pods
  }

  ghost predicate SameAt(st: ServerState, after: ServerState, k: Key) {
    && HeldBy(after.node.pool, k) == HeldBy(st.node.pool, k)
    && (k in after.live <==> k in st.live) && (k in st.live ==> after.live[k] == st.live[k])
    && (k in after.node.pods <==> k in st.node.pods) && (k in st.node.pods ==> after.node.pods[k] == st.node.pods[k])
  }

  // A step that touches one key, which was untouched before, keeps everything fine exactly when that key is.
  lemma FineStep(st: ServerState, after: ServerState, key: Key, strays: bool)
    requires Untouched(st, key) && forall k :: k != key ==> SameAt(st, after, k)
    requires KeyFine(after, key) <==> !strays
    ensures AllFine(after) <==> AllFine(st) && !strays
  {
    assert KeyFine(st, key);
    forall k | k != key
      ensures KeyFine(after, k) <==> KeyFine(st, k)
    {
      assert SameAt(st, after, k);
    }
  }

  // Services ---------------------------------------------------------------------------------------------

  // A service that binds the port it asks for and has another one recorded keeps that one reserved.
  predicate ServiceStrays(svc: Service, busy: set<int>) {
    NodePort(svc) > 0 && BindsRequested(svc, busy) && svc.ports[0].port != NodePort(svc)
  }

  lemma ServiceSame(st: ServerState, svc: Service, busy: set<int>, k: Key)
    requires k != svc.key
    ensures SameAt(st, RecoverService(st, svc, busy), k)
  {
  }

  lemma ServiceFine(st: ServerState, svc: Service, busy: set<int>)
    requires Mutual(st.node.pool) && Untouched(st, svc.key) && !TakenByOther(st.node.pool, NodePort(svc), svc.key)
    ensures KeyFine(RecoverService(st, svc, busy), svc.key) <==> !ServiceStrays(svc, busy)
  {
    if NodePort(svc) in st.node.pool.used {
      UsedIsHeld(st.node.pool, NodePort(svc));
    }
  }

  // Under distinct records nobody else has the recorded port.
  lemma RecordNotTaken(pool: Pool, records: map<Key, int>, k: Key)
    requires Distinct(records) && Agrees(pool, records, {}) && k in records
    ensures !TakenByOther(pool, records[k], k)
  {
    if records[k] in pool.used {
      UsedIsHeld(pool, records[k]);
      assert AgreesAt(pool, records, {}, pool.used[records[k]]);
    }
  }

  ghost predicate NewServices(st: ServerState, svcs: seq<Service>) {
    && (forall i :: 0 <= i < |svcs| ==> Untouched(st, svcs[i].key))
    && (forall i, j :: 0 <= i < j < |svcs| ==> svcs[i].key != svcs[j].key)
  }

  lemma ServiceStep(st: ServerState, svcs: seq<Service>, busy: set<int>, records: map<Key, int>)
    requires Distinct(records) && Agrees(st.node.pool, records, {})
    requires svcs != [] && NewServices(st, svcs) && DrawnService(svcs[0], records)
    ensures var after := RecoverService(st, svcs[0], busy);
      && (AllFine(after) <==> AllFine(st) && !ServiceStrays(svcs[0], busy))
      && NewServices(after, svcs[1..])
      && (forall k :: k != svcs[0].key ==> SameAt(st, after, k))
  {
    var svc, after := svcs[0], RecoverService(st, svcs[0], busy);
    if NodePort(svc) > 0 {
      RecordNotTaken(st.node.pool, records, svc.key);
    }
    forall k | k != svc.key
      ensures SameAt(st, after, k)
    {
      ServiceSame(st, svc, busy, k);
    }
    if NodePort(svc) > 0 {
      ServiceFine(st, svc, busy);
    }
    assert KeyFine(st, svc.key);
    FineStep(st, after, svc.key, ServiceStrays(svc, busy));
  }

  lemma {:induction false} ServicesFineIff(
    st: ServerState, svcs: seq<Service>, busy: seq<set<int>>, records: map<Key, int>)
    requires Distinct(records) && Agrees(st.node.pool, records, {}) && |busy| == |svcs|
    requires NewServices(st, svcs) && forall i :: 0 <= i < |svcs| ==> DrawnService(svcs[i], records)
    ensures var after := RecoverServices(st, svcs, busy);
      && (AllFine(after) <==> AllFine(st) && forall i :: 0 <= i < |svcs| ==> !ServiceStrays(svcs[i], busy[i]))
      && (forall k :: (forall i :: 0 <= i < |svcs| ==> svcs[i].key != k) ==> SameAt(st, after, k))
    decreases |svcs|
  {
    if svcs != [] {
      var next := RecoverService(st, svcs[0], busy[0]);
      ServiceStep(st, svcs, busy[0], records);
      ServiceAgrees(st, svcs[0], busy[0], records, {});
      ServicesFineIff(next, svcs[1..], busy[1..], records);
      FirstAndRest(svcs, busy);
      forall k | forall i :: 0 <= i < |svcs| ==> svcs[i].key != k
        ensures SameAt(st, RecoverServices(st, svcs, busy), k)
      {
        assert SameAt(st, next, k);
        assert forall i :: 0 <= i < |svcs[1..]| ==> svcs[1..][i].key != k;
        assert SameAt(next, RecoverServices(next, svcs[1..], busy[1..]), k);
      }
    }
  }

  lemma FirstAndRest(svcs: seq<Service>, busy: seq<set<int>>)
    requires svcs != [] && |busy| == |svcs|
    ensures (forall i :: 0 <= i < |svcs| ==> !ServiceStrays(svcs[i], busy[i])) <==>
              !ServiceStrays(svcs[0], busy[0])
              && forall i :: 0 <= i < |svcs[1..]| ==> !ServiceStrays(svcs[1..][i], busy[1..][i])
  {
    if forall i :: 0 <= i < |svcs[1..]| ==> !ServiceStrays(svcs[1..][i], busy[1..][i]) {
      forall i | 1 <= i < |svcs|
        ensures !ServiceStrays(svcs[i], busy[i])
      {
        assert !ServiceStrays(svcs[1..][i - 1], busy[1..][i - 1]);
      }
    }
  }

  // Pods -------------------------------------------------------------------------------------------------

  // A pod with a recorded port that has no container ports, or whose manifest names no engine, keeps it reserved.
  predicate PodStrays(pod: Pod, a: Attempt) {
    Recoverable(pod) && pod.status.hostPort > 0 && (a.engine.None? || !WantsPort(pod))
  }

  lemma LaunchSame(st: ServerState, pod: Pod, a: Attempt, k: Key)
    requires k != pod.key
    ensures SameAt(st, AfterLaunchPod(st, pod, a), k)
  {
    LaunchPool(st, pod, a);
    LaunchSameTable(st, pod, a, k);
  }

  lemma LaunchSameTable(st: ServerState, pod: Pod, a: Attempt, k: Key)
    requires k != pod.key
    ensures var after := AfterLaunchPod(st, pod, a);
      && after.live == st.live
      && (k in after.node.pods <==> k in st.node.pods) && (k in st.node.pods ==> after.node.pods[k] == st.node.pods[k])
  {
    match a.engine
    case None =>
    case Some(engine) => LaunchTable(st.node, LaunchOf(pod, engine, a.world));
  }

  lemma ReservedSame(st: ServerState, key: Key, port: int, k: Key)
    requires k != key
    ensures SameAt(st, Reserved(st, key, port), k)
  {
  }

  lemma PodSame(st: ServerState, pod: Pod, a: Attempt, k: Key)
    requires k != pod.key
    ensures SameAt(st, RecoverPod(st, pod, a), k)
  {
    var st' := Reserved(st, pod.key, pod.status.hostPort);
    ReservedSame(st, pod.key, pod.status.hostPort, k);
    LaunchSame(st', pod, a, k);
  }

  // Once its port is reserved, a launch gives it back or uses it, if it gets as far as to ask for one.
  lemma LaunchFine(st: ServerState, pod: Pod, a: Attempt)
    requires pod.key in st.node.pool.held && st.node.pool.held[pod.key] > 0
    requires pod.key !in st.live && pod.key !in st.node.pods
    ensures KeyFine(AfterLaunchPod(st, pod, a), pod.key) <==> a.engine.Some? && WantsPort(pod)
  {
    match a.engine
    case None =>
    case Some(engine) => LaunchTable(st.node, LaunchOf(pod, engine, a.world));
  }

  lemma PodFine(st: ServerState, pod: Pod, a: Attempt)
    requires Mutual(st.node.pool) && Untouched(st, pod.key)
    requires Recoverable(pod) && pod.status.hostPort > 0
    requires !TakenByOther(st.node.pool, pod.status.hostPort, pod.key)
    ensures KeyFine(RecoverPod(st, pod, a), pod.key) <==> !PodStrays(pod, a)
  {
    if pod.status.hostPort in st.node.pool.used {
      UsedIsHeld(st.node.pool, pod.status.hostPort);
    }
    LaunchFine(Reserved(st, pod.key, pod.status.hostPort), pod, a);
  }

  // A pod without container ports and without a record has nothing to do with the pool.
  lemma PortlessFine(st: ServerState, pod: Pod, a: Attempt)
    requires Untouched(st, pod.key) && (Recoverable(pod) ==> pod.status.hostPort <= 0 && !WantsPort(pod))
    ensures KeyFine(RecoverPod(st, pod, a), pod.key) && !PodStrays(pod, a)
  {
    match a.engine
    case None =>
    case Some(engine) => LaunchTable(st.node, LaunchOf(pod, engine, a.world));
  }

  ghost predicate NewPods(st: ServerState, list: seq<Pod>) {
    && (forall i :: 0 <= i < |list| ==> Untouched(st, list[i].key))
    && (forall i, j :: 0 <= i < j < |list| ==> list[i].key != list[j].key)
  }

  lemma RestNew(st: ServerState, after: ServerState, list: seq<Pod>)
    requires list != [] && NewPods(st, list) && forall k :: k != list[0].key ==> SameAt(st, after, k)
    ensures NewPods(after, list[1..])
  {
    forall i | 0 <= i < |list[1..]|
      ensures Untouched(after, list[1..][i].key)
    {
      assert Untouched(st, list[i + 1].key);
      assert SameAt(st, after, list[i + 1].key);
    }
  }

  lemma OnePodFine(st: ServerState, pod: Pod, a: Attempt, records: map<Key, int>)
    requires Distinct(records) && Agrees(st.node.pool, records, {})
    requires Untouched(st, pod.key) && DrawnPod(pod, records, {})
    ensures KeyFine(RecoverPod(st, pod, a), pod.key) <==> !PodStrays(pod, a)
  {
    if Recoverable(pod) && pod.status.hostPort > 0 {
      RecordNotTaken(st.node.pool, records, pod.key);
      PodFine(st, pod, a);
    } else {
      PortlessFine(st, pod, a);
    }
  }

  lemma PodStep(st: ServerState, list: seq<Pod>, a: Attempt, records: map<Key, int>)
    requires Distinct(records) && Agrees(st.node.pool, records, {})
    requires list != [] && NewPods(st, list) && DrawnPod(list[0], records, {})
    ensures var after := RecoverPod(st, list[0], a);
      && (AllFine(after) <==> AllFine(st) && !PodStrays(list[0], a))
      && NewPods(after, list[1..])
  {
    var pod, after := list[0], RecoverPod(st, list[0], a);
    forall k | k != pod.key
      ensures SameAt(st, after, k)
    {
      PodSame(st, pod, a, k);
    }
    OnePodFine(st, pod, a, records);
    FineStep(st, after, pod.key, PodStrays(pod, a));
    RestNew(st, after, list);
  }

  // Recovery keeps a positive pool positive.
  lemma AgreesPositive(pool: Pool, records: map<Key, int>)
    requires PortRecords(records) && Agrees(pool, records, {}) && pool.minPort > 0
    ensures Positive(pool)
  {
    forall port | port in pool.used
      ensures port > 0
    {
      UsedIsHeld(pool, port);
      assert AgreesAt(pool, records, {}, pool.used[port]);
    }
  }

  lemma {:induction false} PodsFineIff(
    st: ServerState, list: seq<Pod>, attempts: map<Key, Attempt>, records: map<Key, int>)
    requires PortRecords(records) && Distinct(records) && Agrees(st.node.pool, records, {})
    requires st.node.pool.minPort > 0 && Restored(st, records, {})
    requires Startable(st, list, attempts, records, {}) && NewPods(st, list)
    ensures var after := RecoverPods(st, list, attempts);
      && (AllFine(after) <==>
            AllFine(st) && forall i :: 0 <= i < |list| ==> !PodStrays(list[i], attempts[list[i].key]))
      && Agrees(after.node.pool, records, {}) && after.node.pool.minPort == st.node.pool.minPort
    decreases |list|
  {
    if list != [] {
      var a := attempts[list[0].key];
      var next := RecoverPod(st, list[0], a);
      PodStep(st, list, a, records);
      PodRestores(st, list[0], a, records, {});
      RestStartable(st, next, list, attempts, records, {});
      PodsFineIff(next, list[1..], attempts, records);
      FirstPodAndRest(list, attempts);
    }
  }

  lemma FirstPodAndRest(list: seq<Pod>, attempts: map<Key, Attempt>)
    requires list != [] && forall i :: 0 <= i < |list| ==> list[i].key in attempts
    ensures (forall i :: 0 <= i < |list| ==> !PodStrays(list[i], attempts[list[i].key])) <==>
              !PodStrays(list[0], attempts[list[0].key])
              && forall i :: 0 <= i < |list[1..]| ==> !PodStrays(list[1..][i], attempts[list[1..][i].key])
  {
    if forall i :: 0 <= i < |list[1..]| ==> !PodStrays(list[1..][i], attempts[list[1..][i].key]) {
      forall i | 1 <= i < |list|
        ensures !PodStrays(list[i], attempts[list[i].key])
      {
        assert !PodStrays(list[1..][i - 1], attempts[list[1..][i - 1].key]);
      }
    }
  }

  // Ports are conserved after a restart, with distinct records and services and pods apart, exactly when no service
  // and no pod strays.
  lemma ConservedAfterRestartIff(r: Restart, minPort: int, maxPort: int, records: map<Key, int>)
    requires 0 < minPort && PortRecords(records) && Distinct(records)
    requires Admissible(r, minPort, maxPort, records, {}) && r.st.live == map[]
    requires forall i, j :: 0 <= i < j < |r.svcs| ==> r.svcs[i].key != r.svcs[j].key
    requires forall i, j :: 0 <= i < |r.svcs| && 0 <= j < |r.list| ==> r.svcs[i].key != r.list[j].key
    ensures Conserved(System(Restarted(r).node, Restarted(r).live)) <==>
              && (forall i :: 0 <= i < |r.svcs| ==> !ServiceStrays(r.svcs[i], r.busy[i]))
              && (forall i :: 0 <= i < |r.list| ==> !PodStrays(r.list[i], r.attempts[r.list[i].key]))
  {
    var started := RecoverServices(r.st, r.svcs, r.busy);
    ServicesFineIff(r.st, r.svcs, r.busy, records);
    ServicesAgree(r.st, r.svcs, r.busy, records, {});
    forall i | 0 <= i < |r.list|
      ensures Untouched(started, r.list[i].key)
    {
      assert SameAt(r.st, started, r.list[i].key);
    }
    PodsFineIff(started, r.list, r.attempts, records);
    AgreesPositive(Restarted(r).node.pool, records);
    ConservedIffFine(Restarted(r));
    assert AllFine(r.st);
  }
}
