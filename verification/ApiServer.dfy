// The server's own pods (api/server.go) and its cascading deletes (api/deployment_handler.go).
module ApiServer {
  import opened ApiTypes
  import opened ControllerStore
  import opened Lifecycle
  import opened Ports
  import opened ReplicaSetController
  import opened ServiceProxy
  import opened Totals
  import opened Volumes

  datatype ServerState = ServerState(node: Node, live: map<Key, int>, stored: map<Key, Pod>)

  function EmptyServer(minPort: int, maxPort: int): ServerState {
    ServerState(Node(EmptyPool(minPort, maxPort), map[], map[]), map[], map[])
  }

  // The engine and target derived from a pod's manifest, if any, and the launch's surroundings.
  datatype Attempt = Attempt(engine: Option<(string, string)>, world: World)

  // An attempt in which nothing goes wrong for a pod without volumes.
  const CALM := Attempt(
    Some(("native", "c")), World(Config(map[], map[]), Disk({}, {}), None, true, {"native"}, true, true))

  function WithPhase(pod: Pod, phase: Phase): Pod {
    pod.(status := pod.status.(phase := phase))
  }

  function LaunchOf(pod: Pod, engine: (string, string), world: World): Launch {
    Launch(pod.(status := PodStatus(Pending, [], 0)), engine.0, engine.1, world)
  }

  function AfterLaunchPod(st: ServerState, pod: Pod, a: Attempt): ServerState {
    match a.engine
    case None => st.(stored := st.stored[pod.key := WithPhase(pod, Failed)])
    case Some(engine) =>
      var l := LaunchOf(pod, engine, a.world);
      var phase := if OutcomeOf(st.node, l) == Outcome.Launched then Running else Failed;
      st.(node := AfterLaunch(st.node, l), stored := st.stored[pod.key := WithPhase(SeenAfter(st.node, l), phase)])
  }

  function AfterDeletePod(st: ServerState, k: Key): ServerState {
    st.(node := AfterTerminate(st.node, k), stored := st.stored - {k})
  }

  function AfterDeletePods(st: ServerState, keys: seq<Key>): ServerState
    decreases |keys|
  {
    if keys == [] then st else AfterDeletePods(AfterDeletePod(st, keys[0]), keys[1..])
  }

  function Reserved(st: ServerState, key: Key, port: int): ServerState {
    st.(node := st.node.(pool := if port > 0 then Reservation(st.node.pool, key, port).0 else st.node.pool))
  }

  function NodePort(svc: Service): int {
    if |svc.ports| > 0 then svc.ports[0].nodePort else 0
  }

  // A service with a recorded node port reserves it and is started.
  function RecoverService(st: ServerState, svc: Service, busy: set<int>): ServerState {
    if NodePort(svc) <= 0 then st else
      var st' := Reserved(st, svc.key, NodePort(svc));
      var p := Started(Proxies(st'.node.pool, st'.live), svc, busy).0;
      st'.(node := st'.node.(pool := p.pool), live := p.live)
  }

  // A pod that was running or pending reserves its recorded port, if any, and is launched again.
  function RecoverPod(st: ServerState, pod: Pod, a: Attempt): ServerState {
    if pod.status.phase != Running && pod.status.phase != Pending then st
    else AfterLaunchPod(Reserved(st, pod.key, pod.status.hostPort), pod, a)
  }

  function RecoverServices(st: ServerState, svcs: seq<Service>, busy: seq<set<int>>): ServerState
    requires |busy| == |svcs|
    decreases |svcs|
  {
    if svcs == [] then st else RecoverServices(RecoverService(st, svcs[0], busy[0]), svcs[1..], busy[1..])
  }

  function RecoverPods(st: ServerState, list: seq<Pod>, attempts: map<Key, Attempt>): ServerState
    requires forall i :: 0 <= i < |list| ==> list[i].key in attempts
    decreases |list|
  {
    if list == [] then st else RecoverPods(RecoverPod(st, list[0], attempts[list[0].key]), list[1..], attempts)
  }

  // What an engine reports for a pod; one that it does not know is pending.
  function PhaseOf(phases: map<Key, Phase>, k: Key): Phase {
    if k in phases then phases[k] else Pending
  }

  function ShownPod(st: ServerState, k: Key, engines: set<string>, phases: map<Key, Phase>): Pod
    requires k in st.stored
  {
    if k in st.node.pods then
      var mp := st.node.pods[k];
      st.stored[k].(status := StatusOf(mp, mp.engineType in engines, PhaseOf(phases, k)))
    else st.stored[k]
  }

  // The pods as the controllers see them.
  function Shown(st: ServerState, engines: set<string>, phases: map<Key, Phase>): map<Key, Pod> {
    map k | k in st.stored :: ShownPod(st, k, engines, phases)
  }

  lemma ShownListing(
    st: ServerState, engines: set<string>, phases: map<Key, Phase>, all: seq<Pod>, list: seq<Pod>, ns: string)
    requires KeyedPods(st.stored) && IsPodListing(all, st.stored, ns) && |list| == |all|
    requires forall j :: 0 <= j < |all| ==> list[j] == ShownPod(st, all[j].key, engines, phases)
    ensures IsPodListing(list, Shown(st, engines, phases), ns)
  {
    var shown := Shown(st, engines, phases);
    forall j | 0 <= j < |list|
      ensures list[j].key == all[j].key
    {
      assert st.stored[all[j].key] == all[j];
    }
    forall k | k in shown && InNamespace(k, ns)
      ensures shown[k] in list
    {
      var j :| 0 <= j < |all| && all[j] == st.stored[k];
      assert list[j] == shown[k];
    }
  }

  // Seen through its pods, the server is the pod manager that the ReplicaSet controller works with: a launch of a
  // new pod stores it with some status, one that fails with a failed one, and touches no other pod.
  lemma LaunchShows(st: ServerState, pod: Pod, a: Attempt, engines: set<string>, phases: map<Key, Phase>)
    returns (outcome: LaunchOutcome)
    requires pod.key !in st.node.pods
    ensures Shown(AfterLaunchPod(st, pod, a), engines, phases) ==
            Shown(st, engines, phases)[pod.key := pod.(status := StatusAfter(outcome))]
    ensures outcome.Launched? <==>
              a.engine.Some? && OutcomeOf(st.node, LaunchOf(pod, a.engine.value, a.world)).Launched?
  {
    var after := AfterLaunchPod(st, pod, a);
    var status := ShownPod(after, pod.key, engines, phases).status;
    outcome := if pod.key in after.node.pods then LaunchOutcome.Launched(status) else LaunchFails(status);
    LaunchStores(st, pod, a);
    ShownOneMore(st, after, pod.key, engines, phases);
  }

  lemma LaunchStores(st: ServerState, pod: Pod, a: Attempt)
    requires pod.key !in st.node.pods
    ensures var after := AfterLaunchPod(st, pod, a);
      && (forall k :: k != pod.key ==> (k in after.node.pods <==> k in st.node.pods))
      && (forall k :: k != pod.key && k in st.node.pods ==> after.node.pods[k] == st.node.pods[k])
      && pod.key in after.stored && after.stored == st.stored[pod.key := after.stored[pod.key]]
      && after.stored[pod.key] == pod.(status := after.stored[pod.key].status)
      && (pod.key in after.node.pods <==>
            a.engine.Some? && OutcomeOf(st.node, LaunchOf(pod, a.engine.value, a.world)).Launched?)
      && (pod.key !in after.node.pods ==> after.stored[pod.key].status.phase == Failed)
  {
    match a.engine
    case None =>
    case Some(engine) => LaunchTable(st.node, LaunchOf(pod, engine, a.world));
  }

  lemma ShownOneMore(st: ServerState, after: ServerState, key: Key, engines: set<string>, phases: map<Key, Phase>)
    requires key in after.stored && after.stored == st.stored[key := after.stored[key]]
    requires forall k :: k != key ==> (k in after.node.pods <==> k in st.node.pods)
    requires forall k :: k != key && k in st.node.pods ==> after.node.pods[k] == st.node.pods[k]
    ensures Shown(after, engines, phases) ==
            Shown(st, engines, phases)[key := ShownPod(after, key, engines, phases)]
  {
  }

  // A pod that is not managed is listed as it is stored.  A managed one is listed with the phase its engine reports,
  // pending if the engine does not know it, its port, and its container ready while it is both; without its engine,
  // as failed.
  lemma ListedStatus(st: ServerState, k: Key, engines: set<string>, phases: map<Key, Phase>)
    requires k in st.stored
    ensures k in Shown(st, engines, phases)
    ensures k !in st.node.pods ==> Shown(st, engines, phases)[k] == st.stored[k]
    ensures k in st.node.pods ==>
      var mp, phase := st.node.pods[k], if k in phases then phases[k] else Pending;
      Shown(st, engines, phases)[k] == st.stored[k].(status :=
        if mp.engineType !in engines then PodStatus(Failed, [], 0)
        else PodStatus(
          phase, if |mp.pod.spec.containers| == 0 then [] else [mp.ready && phase == Running], mp.hostPort))
  {
  }

  // A pod is managed with the engine and target of its manifest and with its status reset to pending; it is stored
  // as running, with the port it got, or as failed.
  lemma LaunchedAsAsked(st: ServerState, pod: Pod, a: Attempt, engine: string, target: string)
    requires a.engine == Some((engine, target))
    ensures var after := AfterLaunchPod(st, pod, a);
      if pod.key in st.node.pods then
        && after.node == st.node
        && after.stored == st.stored[pod.key := pod.(status := PodStatus(Failed, [], 0))]
      else if pod.key in after.node.pods then
        var mp := after.node.pods[pod.key];
        && mp.engineType == engine && mp.target == target && mp.pod.spec == pod.spec && mp.pod.uid == pod.uid
        && mp.pod.status == PodStatus(Pending, [], if mp.hostPort > 0 then mp.hostPort else 0)
        && after.stored == st.stored[pod.key := pod.(status := mp.pod.status.(phase := Running))]
      else
        && after.stored.Keys == st.stored.Keys + {pod.key}
        && after.stored[pod.key].status.phase == Failed && after.stored[pod.key].spec == pod.spec
  {
    LaunchTable(st.node, LaunchOf(pod, (engine, target), a.world));
  }

  predicate OwnedByReplicaSet(pod: Pod, rs: Key) {
    InNamespace(pod.key, rs.ns) && pod.owner == ReplicaSetOwner(rs.name)
  }

  predicate OwnedByDeployment(rs: ReplicaSet, dep: Key) {
    InNamespace(rs.key, dep.ns) && rs.owner == DeploymentOwner(dep.name)
  }

  // The pod belongs to one of the deployment's ReplicaSets.
  ghost predicate Doomed(pod: Pod, rss: map<Key, ReplicaSet>, dep: Key) {
    exists r :: r in rss && OwnedByDeployment(rss[r], dep) && OwnedByReplicaSet(pod, r)
  }

  // In a deployment with a namespace, that is so for the pods of this namespace whose owner is a ReplicaSet of the
  // namespace that the deployment owns.
  lemma DoomedIs(pod: Pod, rss: map<Key, ReplicaSet>, dep: Key)
    requires KeyedReplicaSets(rss) && dep.ns != ""
    ensures Doomed(pod, rss, dep) <==>
              && pod.key.ns == dep.ns && pod.owner.ReplicaSetOwner?
              && Key(dep.ns, pod.owner.name) in rss
              && rss[Key(dep.ns, pod.owner.name)].owner == DeploymentOwner(dep.name)
  {
    if pod.owner.ReplicaSetOwner? && Key(dep.ns, pod.owner.name) in rss {
      var r := Key(dep.ns, pod.owner.name);
      assert rss[r].key == r && (OwnedByReplicaSet(pod, r) <==> pod.key.ns == dep.ns);
    }
  }

  // The keys deleted once the first n listed ReplicaSets have been handled.
  ghost predicate DeletedSoFar(pods: map<Key, Pod>, list: seq<ReplicaSet>, n: nat, dep: Key, keys: seq<Key>)
    requires n <= |list|
  {
    forall k :: k in keys <==>
      k in pods && exists i :: 0 <= i < n && OwnedByDeployment(list[i], dep) && OwnedByReplicaSet(pods[k], list[i].key)
  }

  ghost predicate RemovedSoFar(
    rss: map<Key, ReplicaSet>, rss': map<Key, ReplicaSet>, list: seq<ReplicaSet>, n: nat, dep: Key)
    requires n <= |list|
  {
    && (forall r :: r in rss' <==>
          r in rss && !exists i :: 0 <= i < n && OwnedByDeployment(list[i], dep) && list[i].key == r)
    && (forall r :: r in rss' ==> rss'[r] == rss[r])
  }

  class Server {
    const portPool: PortPool
    const lifecycle: LifecycleManager
    const proxyManager: ProxyManager
    const store: Store
    var pods: map<Key, Pod>

    ghost predicate Valid()
      reads this, store
    {
      && lifecycle.portPool == portPool && proxyManager.portPool == portPool
      && KeyedPods(pods) && KeyedReplicaSets(store.replicaSets)
    }

    ghost function Value(): ServerState
      reads this, lifecycle, lifecycle.portPool, lifecycle.volumes, proxyManager
    {
      ServerState(lifecycle.Value(), proxyManager.proxies, pods)
    }

    constructor (lifecycle: LifecycleManager, proxyManager: ProxyManager, store: Store)
      requires lifecycle.portPool == proxyManager.portPool && KeyedReplicaSets(store.replicaSets)
      ensures Valid() && pods == map[]
      ensures this.lifecycle == lifecycle && this.proxyManager == proxyManager && this.store == store
    {
      this.lifecycle, this.proxyManager, this.store := lifecycle, proxyManager, store;
      portPool := lifecycle.portPool;
      pods := map[];
    }

    // The order of the result is the map's own and not fixed.
    method AllPods(ns: string) returns (list: seq<Pod>)
      requires Valid()
      ensures IsPodListing(list, pods, ns)
    {
      list := Listed(pods, ns);
    }

    // The stored pods, managed ones with their live status.
    method ListPods(ns: string, engines: set<string>, phases: map<Key, Phase>) returns (list: seq<Pod>)
      requires Valid()
      ensures IsPodListing(list, Shown(Value(), engines, phases), ns)
    {
      var all := AllPods(ns);
      list := [];
      for i := 0 to |all|
        invariant |list| == i
        invariant forall j :: 0 <= j < i ==> list[j] == ShownPod(Value(), all[j].key, engines, phases)
      {
        var status := lifecycle.Status(all[i].key, engines, PhaseOf(phases, all[i].key));
        list := list + [if status.Some? then all[i].(status := status.value) else all[i]];
      }
      ShownListing(Value(), engines, phases, all, list, ns);
    }

    method LaunchPod(pod: Pod, a: Attempt) returns (ok: bool)
      requires Valid()
      modifies this, lifecycle, portPool, lifecycle.volumes
      ensures Valid()
      ensures Value() == AfterLaunchPod(old(Value()), pod, a)
      ensures ok == (a.engine.Some? && OutcomeOf(old(Value()).node, LaunchOf(pod, a.engine.value, a.world)).Launched?)
    {
      pods := pods[pod.key := pod];
      if a.engine.None? {
        pods := pods[pod.key := WithPhase(pod, Failed)];
        assert pods == old(pods)[pod.key := WithPhase(pod, Failed)];
        return false;
      }
      ok := LaunchConfigured(LaunchOf(pod, a.engine.value, a.world));
      UpdatedTwice(old(pods), pod.key, pod, pods[pod.key]);
    }

    // LaunchPod from the reset of the status on.
    method LaunchConfigured(l: Launch) returns (ok: bool)
      requires Valid()
      modifies this, lifecycle, portPool, lifecycle.volumes
      ensures Valid()
      ensures ok == OutcomeOf(old(Value()).node, l).Launched?
      ensures lifecycle.Value() == AfterLaunch(old(Value()).node, l)
      ensures pods == old(pods)[l.pod.key := WithPhase(SeenAfter(old(Value()).node, l), if ok then Running else Failed)]
    {
      var outcome, seen := lifecycle.Launch(l);
      ok := outcome == Outcome.Launched;
      pods := pods[seen.key := WithPhase(seen, if ok then Running else Failed)];
    }

    method DeletePod(k: Key)
      requires Valid()
      modifies this, lifecycle, portPool, lifecycle.volumes
      ensures Valid()
      ensures Value() == AfterDeletePod(old(Value()), k)
    {
      var _ := lifecycle.Terminate(k);
      pods := pods - {k};
    }

    // Services first, then pods in whatever order the map gives.
    method RecoverState(svcs: seq<Service>, busy: seq<set<int>>, attempts: map<Key, Attempt>)
      returns (ghost list: seq<Pod>)
      requires Valid() && |busy| == |svcs|
      requires forall k :: k in pods ==> k in attempts
      modifies this, lifecycle, portPool, lifecycle.volumes, proxyManager
      ensures Valid()
      ensures IsPodListing(list, old(pods), "")
      ensures Value() == RecoverPods(RecoverServices(old(Value()), svcs, busy), list, attempts)
    {
      for i := 0 to |svcs|
        invariant Valid() && pods == old(pods)
        invariant RecoverServices(old(Value()), svcs, busy) == RecoverServices(Value(), svcs[i..], busy[i..])
      {
        var svc := svcs[i];
        if |svc.ports| > 0 && svc.ports[0].nodePort > 0 {
          var _ := portPool.Reserve(svc.key, svc.ports[0].nodePort);
          var _ := proxyManager.StartProxy(svc, busy[i]);
        }
        assert svcs[i..][1..] == svcs[i + 1..] && busy[i..][1..] == busy[i + 1..];
      }
      var all := AllPods("");
      ghost var st := Value();
      for i := 0 to |all|
        invariant Valid()
        invariant RecoverPods(st, all, attempts) == RecoverPods(Value(), all[i..], attempts)
      {
        RecoverOne(all[i], attempts[all[i].key]);
        assert all[i..][1..] == all[i + 1..];
      }
      return all;
    }

    // One iteration of the loop over pods.
    method RecoverOne(pod: Pod, a: Attempt)
      requires Valid()
      modifies this, lifecycle, portPool, lifecycle.volumes
      ensures Valid()
      ensures Value() == RecoverPod(old(Value()), pod, a)
    {
      if pod.status.phase == Running || pod.status.phase == Pending {
        if pod.status.hostPort > 0 {
          var _ := portPool.Reserve(pod.key, pod.status.hostPort);
        }
        var _ := LaunchPod(pod, a);
      }
    }

    // Terminates and deletes every pod that the ReplicaSet owns, then the ReplicaSet.
    method CascadeDeleteReplicaSet(rs: ReplicaSet) returns (ghost keys: seq<Key>)
      requires Valid()
      modifies this, lifecycle, portPool, lifecycle.volumes, store
      ensures Valid()
      ensures forall k :: k in keys <==> k in old(pods) && OwnedByReplicaSet(old(pods)[k], rs.key)
      ensures rs.key.ns != "" ==>
                forall k :: k in keys <==>
                  k in old(pods) && k.ns == rs.key.ns && old(pods)[k].owner == ReplicaSetOwner(rs.key.name)
      ensures Value() == AfterDeletePods(old(Value()), keys)
      ensures store.replicaSets == old(store.replicaSets) - {rs.key} && store.deployments == old(store.deployments)
    {
      var list := AllPods(rs.key.ns);
      keys := [];
      for i := 0 to |list|
        invariant Valid() && store.replicaSets == old(store.replicaSets) && store.deployments == old(store.deployments)
        invariant forall k :: k in keys ==> k in old(pods) && OwnedByReplicaSet(old(pods)[k], rs.key)
        invariant forall j :: 0 <= j < i && OwnedByReplicaSet(list[j], rs.key) ==> list[j].key in keys
        invariant Value() == AfterDeletePods(old(Value()), keys)
      {
        if list[i].owner == ReplicaSetOwner(rs.key.name) {
          OneMorePod(old(Value()), keys, list[i].key);
          var _ := lifecycle.Terminate(list[i].key);
          DeletePod(list[i].key);
          keys := keys + [list[i].key];
        }
      }
      forall k | k in old(pods) && OwnedByReplicaSet(old(pods)[k], rs.key)
        ensures k in keys
      {
        assert old(pods)[k] in list;
      }
      store.DeleteReplicaSet(rs.key);
    }

    // The deployment, its ReplicaSets and their pods are deleted; nothing happens when it does not exist.
    method HandleDeleteDeployment(dep: Key) returns (found: bool, ghost keys: seq<Key>)
      requires Valid()
      modifies this, lifecycle, portPool, lifecycle.volumes, store
      ensures Valid() && found == (dep in old(store.deployments))
      ensures forall k :: k in keys <==> found && k in old(pods) && Doomed(old(pods)[k], old(store.replicaSets), dep)
      ensures Value() == AfterDeletePods(old(Value()), keys)
      ensures store.deployments == old(store.deployments) - {dep}
      ensures forall r :: r in store.replicaSets <==>
                && r in old(store.replicaSets)
                && !(found && OwnedByDeployment(old(store.replicaSets)[r], dep))
      ensures forall r :: r in store.replicaSets ==> store.replicaSets[r] == old(store.replicaSets)[r]
    {
      keys := [];
      if dep !in store.deployments {
        return false, keys;
      }
      var list := store.ListReplicaSets(dep.ns);
      keys := CascadeDeleteOwned(list, dep);
      AllHandled(old(pods), old(store.replicaSets), store.replicaSets, list, dep, keys);
      store.DeleteDeployment(dep);
      return true, keys;
    }

    // The loop over the listed ReplicaSets.
    method CascadeDeleteOwned(list: seq<ReplicaSet>, dep: Key) returns (ghost keys: seq<Key>)
      requires Valid() && IsListing(list, store.replicaSets, dep.ns)
      modifies this, lifecycle, portPool, lifecycle.volumes, store
      ensures Valid() && store.deployments == old(store.deployments)
      ensures DeletedSoFar(old(pods), list, |list|, dep, keys)
      ensures Value() == AfterDeletePods(old(Value()), keys)
      ensures RemovedSoFar(old(store.replicaSets), store.replicaSets, list, |list|, dep)
    {
      keys := [];
      ghost var st := Value();
      for i := 0 to |list|
        invariant Valid() && store.deployments == old(store.deployments)
        invariant DeletedSoFar(st.stored, list, i, dep, keys)
        invariant Value() == AfterDeletePods(st, keys)
        invariant RemovedSoFar(old(store.replicaSets), store.replicaSets, list, i, dep)
      {
        ghost var now := store.replicaSets;
        ghost var more := CascadeDeleteIfOwned(list[i], dep, st, keys);
        HandledOne(st.stored, list, i, dep, keys, more);
        RemovedOne(old(store.replicaSets), now, list, i, dep);
        keys := keys + more;
      }
    }

    // One iteration of that loop; keys have been deleted from st so far.
    method CascadeDeleteIfOwned(rs: ReplicaSet, dep: Key, ghost st: ServerState, ghost keys: seq<Key>)
      returns (ghost more: seq<Key>)
      requires Valid() && InNamespace(rs.key, dep.ns) && Value() == AfterDeletePods(st, keys)
      modifies this, lifecycle, portPool, lifecycle.volumes, store
      ensures Valid() && store.deployments == old(store.deployments)
      ensures forall k :: k in more <==>
                && OwnedByDeployment(rs, dep)
                && k in st.stored && k !in keys && OwnedByReplicaSet(st.stored[k], rs.key)
      ensures Value() == AfterDeletePods(st, keys + more)
      ensures store.replicaSets ==
              if OwnedByDeployment(rs, dep) then old(store.replicaSets) - {rs.key} else old(store.replicaSets)
    {
      if rs.owner != DeploymentOwner(dep.name) {
        assert keys + [] == keys;
        return [];
      }
      StoredAfterDeletes(st, keys);
      more := CascadeDeleteReplicaSet(rs);
      DeletePodsAppend(st, keys, more);
    }
  }

  lemma HandledOne(pods: map<Key, Pod>, list: seq<ReplicaSet>, n: nat, dep: Key, keys: seq<Key>, more: seq<Key>)
    requires n < |list| && DeletedSoFar(pods, list, n, dep, keys)
    requires forall k :: k in more <==>
               && OwnedByDeployment(list[n], dep)
               && k in pods && k !in keys && OwnedByReplicaSet(pods[k], list[n].key)
    ensures DeletedSoFar(pods, list, n + 1, dep, keys + more)
  {
    forall k
      ensures k in keys + more <==>
                && k in pods
                && exists i :: 0 <= i < n + 1 && OwnedByDeployment(list[i], dep)
                               && OwnedByReplicaSet(pods[k], list[i].key)
    {
      assert k in keys + more <==> k in keys || k in more;
    }
  }

  lemma RemovedOne(rss: map<Key, ReplicaSet>, now: map<Key, ReplicaSet>, list: seq<ReplicaSet>, n: nat, dep: Key)
    requires n < |list| && RemovedSoFar(rss, now, list, n, dep)
    ensures RemovedSoFar(rss, if OwnedByDeployment(list[n], dep) then now - {list[n].key} else now, list, n + 1, dep)
  {
  }

  // A listing shows every ReplicaSet of the deployment.
  lemma AllHandled(
    pods: map<Key, Pod>, rss: map<Key, ReplicaSet>, rss': map<Key, ReplicaSet>, list: seq<ReplicaSet>, dep: Key,
    keys: seq<Key>)
    requires KeyedReplicaSets(rss) && IsListing(list, rss, dep.ns)
    requires DeletedSoFar(pods, list, |list|, dep, keys) && RemovedSoFar(rss, rss', list, |list|, dep)
    ensures forall k :: k in keys <==> k in pods && Doomed(pods[k], rss, dep)
    ensures forall r :: r in rss' <==> r in rss && !OwnedByDeployment(rss[r], dep)
  {
    forall r | r in rss && OwnedByDeployment(rss[r], dep)
      ensures exists i :: 0 <= i < |list| && list[i] == rss[r] && list[i].key == r
    {
      assert rss[r] in list;
    }
  }

  lemma {:induction false} DeletePodsAppend(st: ServerState, keys: seq<Key>, more: seq<Key>)
    ensures AfterDeletePods(st, keys + more) == AfterDeletePods(AfterDeletePods(st, keys), more)
    decreases |keys|
  {
    if keys == [] {
      assert keys + more == more;
    } else {
      assert (keys + more)[1..] == keys[1..] + more;
      DeletePodsAppend(AfterDeletePod(st, keys[0]), keys[1..], more);
    }
  }

  lemma OneMorePod(st: ServerState, keys: seq<Key>, k: Key)
    ensures AfterDeletePods(st, keys + [k]) == AfterDeletePod(AfterDeletePods(st, keys), k)
  {
    DeletePodsAppend(st, keys, [k]);
    var before := AfterDeletePods(st, keys);
    assert AfterDeletePods(AfterDeletePod(before, k), []) == AfterDeletePod(before, k);
  }

  lemma {:induction false} StoredAfterDeletes(st: ServerState, keys: seq<Key>)
    ensures forall k :: k in AfterDeletePods(st, keys).stored <==> k in st.stored && k !in keys
    ensures forall k :: k in AfterDeletePods(st, keys).stored ==> AfterDeletePods(st, keys).stored[k] == st.stored[k]
    decreases |keys|
  {
    if keys != [] {
      StoredAfterDeletes(AfterDeletePod(st, keys[0]), keys[1..]);
    }
  }
}
