// Launching and terminating pods (engine/lifecycle.go): ports, volumes and the table of managed pods.
module Lifecycle {
  import opened ApiTypes
  import opened Ports
  import opened Volumes

  datatype ManagedPod = ManagedPod(
    pod: Pod, engineType: string, target: string, projected: map<string, Dir>, hostPort: int, proxied: bool,
    ready: bool, restartCount: int)

  datatype Node = Node(pool: Pool, tree: Tree, pods: map<Key, ManagedPod>)

  // How everything outside the manager behaves during one launch.  containerPort is what parsing the pod's
  // port annotation gives, None for an annotation that is not a number.
  datatype World = World(
    config: Config, disk: Disk, containerPort: Option<int>, initOk: bool, engines: set<string>, startOk: bool,
    proxyOk: bool)

  datatype Launch = Launch(pod: Pod, engineType: string, target: string, world: World)

  datatype Outcome =
    | Launched | AlreadyManaged | NoPort | BadAnnotation | VolumesFailed | InitFailed | NoEngine | StartFailed

  predicate WantsPort(pod: Pod) {
    |pod.spec.containers| > 0 && |pod.spec.containers[0].ports| > 0
  }

  function VolumesOf(pod: Pod): Request {
    Request(pod.uid, pod.key.ns, pod.spec.volumes)
  }

  // The first stage that fails.
  function OutcomeOf(node: Node, l: Launch): Outcome {
    if l.pod.key in node.pods then AlreadyManaged
    else if WantsPort(l.pod) && Allocation(node.pool, l.pod.key).1.None? then NoPort
    else LaterOutcome(l)
  }

  // The first of the stages after a port has been obtained that fails.
  function LaterOutcome(l: Launch): Outcome {
    if l.pod.portAnnotation.Some? && l.world.containerPort.None? then BadAnnotation
    else if !CanProject(l.world.config, l.world.disk, VolumesOf(l.pod)) then VolumesFailed
    else EngineOutcome(l)
  }

  function EngineOutcome(l: Launch): Outcome {
    if |l.pod.spec.initContainers| > 0 && !l.world.initOk then InitFailed
    else if l.engineType !in l.world.engines then NoEngine
    else if !l.world.startOk then StartFailed
    else Launched
  }

  // The pool after the first stage, and the port obtained, or 0.
  function PortFor(pool: Pool, pod: Pod): (Pool, int) {
    if !WantsPort(pod) then (pool, 0)
    else
      var (after, port) := Allocation(pool, pod.key);
      (after, ValueOr(port, 0))
  }

  function GiveBack(pool: Pool, key: Key, hostPort: int): Pool {
    if hostPort > 0 then Released(pool, key) else pool
  }

  // The container port to forward to; 0 without an annotation.
  function ForwardTo(l: Launch): int {
    if l.pod.portAnnotation.Some? then ValueOr(l.world.containerPort, 0) else 0
  }

  function WithPort(pod: Pod, hostPort: int): Pod {
    if hostPort > 0 then pod.(status := pod.status.(hostPort := hostPort)) else pod
  }

  function ManagedBy(l: Launch, hostPort: int): ManagedPod {
    var proxied := hostPort > 0 && ForwardTo(l) > 0 && hostPort != ForwardTo(l) && l.world.proxyOk;
    ManagedPod(WithPort(l.pod, hostPort), l.engineType, l.target,
               Mounts(VolumesOf(l.pod), |l.pod.spec.volumes|), hostPort, proxied, true, 0)
  }

  // The state after a launch, outcome by outcome.
  function AfterLaunch(node: Node, l: Launch): Node {
    var (pool, hostPort) := PortFor(node.pool, l.pod);
    match OutcomeOf(node, l)
    case AlreadyManaged => node
    case NoPort => node
    case _ => AfterStages(node.(pool := pool), l, hostPort)
  }

  // The caller's pod after a launch: a port once obtained stays in its status, even if a later stage fails.
  function SeenAfter(node: Node, l: Launch): Pod {
    match OutcomeOf(node, l)
    case AlreadyManaged => l.pod
    case NoPort => l.pod
    case _ => WithPort(l.pod, PortFor(node.pool, l.pod).1)
  }

  // The state after the stages that follow the port allocation.
  function AfterStages(node: Node, l: Launch, hostPort: int): Node {
    var pool := GiveBack(node.pool, l.pod.key, hostPort);
    match LaterOutcome(l)
    case BadAnnotation => node.(pool := pool)
    case Launched =>
      Node(node.pool, Placed(node.tree, l.world.config, VolumesOf(l.pod), |l.pod.spec.volumes|),
           node.pods[l.pod.key := ManagedBy(l, hostPort)])
    case _ => Node(pool, Cleaned(node.tree, l.pod.uid), node.pods)
  }

  // A pod that is not managed cannot be terminated.
  function AfterTerminate(node: Node, key: Key): Node {
    if key !in node.pods then node else
      var mp := node.pods[key];
      Node(GiveBack(node.pool, key, mp.hostPort), Cleaned(node.tree, mp.pod.uid), node.pods - {key})
  }

  function AfterTerminates(node: Node, keys: seq<Key>): Node
    decreases |keys|
  {
    if keys == [] then node else AfterTerminates(AfterTerminate(node, keys[0]), keys[1..])
  }

  // The reported status; registered says that the pod's engine is known, phase is what that engine reports.
  function StatusOf(mp: ManagedPod, registered: bool, phase: Phase): PodStatus {
    if !registered then PodStatus(Failed, [], 0) else
      PodStatus(phase, if |mp.pod.spec.containers| > 0 then [mp.ready && phase == Running] else [], mp.hostPort)
  }

  class LifecycleManager {
    const portPool: PortPool
    const volumes: FileSystem
    var pods: map<Key, ManagedPod>

    ghost function Value(): Node
      reads this, portPool, volumes
    {
      Node(portPool.Value(), volumes.tree, pods)
    }

    constructor (portPool: PortPool, volumes: FileSystem)
      ensures this.portPool == portPool && this.volumes == volumes && pods == map[]
    {
      this.portPool, this.volumes := portPool, volumes;
      pods := map[];
    }

    // Also returns the pod as the caller sees it afterwards.
    method Launch(l: Launch) returns (outcome: Outcome, pod: Pod)
      modifies this, portPool, volumes
      ensures Value() == AfterLaunch(old(Value()), l)
      ensures outcome == OutcomeOf(old(Value()), l)
      ensures pod == SeenAfter(old(Value()), l)
    {
      var key := l.pod.key;
      pod := l.pod;
      if key in pods {
        return AlreadyManaged, pod;
      }

      var hostPort := 0;
      if |pod.spec.containers| > 0 && |pod.spec.containers[0].ports| > 0 {
        var port := portPool.Allocate(key);
        if port.None? {
          return NoPort, pod;
        }
        hostPort := port.value;
      }

      if hostPort > 0 {
        pod := pod.(status := pod.status.(hostPort := hostPort));
      }
      outcome := RunStages(l, pod, hostPort);
    }

    // Launch from the annotation on.
    method RunStages(l: Launch, pod: Pod, hostPort: int) returns (outcome: Outcome)
      requires l.pod.key !in pods && pod == WithPort(l.pod, hostPort)
      modifies this, portPool, volumes
      ensures Value() == AfterStages(old(Value()), l, hostPort)
      ensures outcome == LaterOutcome(l)
    {
      var key := pod.key;
      var containerPort := 0;
      if pod.portAnnotation.Some? {
        if l.world.containerPort.None? {
          ReleasePort(key, hostPort);
          return BadAnnotation;
        }
        containerPort := l.world.containerPort.value;
      }

      var projected := volumes.ProjectVolumes(VolumesOf(pod), l.world.config, l.world.disk);
      if projected.None? {
        ReleasePort(key, hostPort);
        return VolumesFailed;
      }

      CleanedPlaced(old(volumes.tree), l.world.config, VolumesOf(pod), |pod.spec.volumes|);
      outcome := Enter(l, pod, projected.value, hostPort, containerPort);
    }

    // Launch from the entry in the table on.
    method Enter(l: Launch, pod: Pod, projected: map<string, Dir>, hostPort: int, containerPort: int)
      returns (outcome: Outcome)
      requires pod.key !in pods && pod == WithPort(l.pod, hostPort) && containerPort == ForwardTo(l)
      requires projected == Mounts(VolumesOf(l.pod), |l.pod.spec.volumes|)
      modifies this, portPool, volumes
      ensures outcome == EngineOutcome(l)
      ensures var node := old(Value());
        Value() == if outcome == Launched then node.(pods := node.pods[pod.key := ManagedBy(l, hostPort)])
                   else Node(GiveBack(node.pool, pod.key, hostPort), Cleaned(node.tree, pod.uid), node.pods)
    {
      var key := pod.key;
      pods := pods[key := ManagedPod(pod, l.engineType, l.target, projected, hostPort, false, false, 0)];
      outcome := StartEngine(l);
      if outcome != Launched {
        Undo(pod, hostPort);
        assert pods == old(pods);
        return;
      }
      if hostPort > 0 && containerPort > 0 && hostPort != containerPort && l.world.proxyOk {
        pods := pods[key := pods[key].(proxied := true)];
      }
      pods := pods[key := pods[key].(ready := true)];
    }

    // What the error paths after the pod has been entered in the table do.
    method Undo(pod: Pod, hostPort: int)
      modifies this, portPool, volumes
      ensures Value() == Node(GiveBack(old(Value()).pool, pod.key, hostPort),
                              Cleaned(old(Value()).tree, pod.uid), old(Value()).pods - {pod.key})
    {
      ReleasePort(pod.key, hostPort);
      volumes.CleanupVolumes(pod.uid);
      pods := pods - {pod.key};
    }

    // The stages after the pod has been entered in the table.
    method StartEngine(l: Launch) returns (outcome: Outcome)
      ensures outcome == EngineOutcome(l)
    {
      if |l.pod.spec.initContainers| > 0 {
        if !l.world.initOk {
          return InitFailed;
        }
      }
      if l.engineType !in l.world.engines {
        return NoEngine;
      }
      if !l.world.startOk {
        return StartFailed;
      }
      return Launched;
    }

    method ReleasePort(key: Key, hostPort: int)
      modifies portPool
      ensures portPool.Value() == GiveBack(old(portPool.Value()), key, hostPort)
    {
      if hostPort > 0 {
        portPool.Release(key);
      }
    }

    method Terminate(key: Key) returns (ok: bool)
      modifies this, portPool, volumes
      ensures Value() == AfterTerminate(old(Value()), key)
      ensures ok == (key in old(pods))
    {
      if key !in pods {
        return false;
      }
      var mp := pods[key];
      pods := pods - {key};
      ReleasePort(key, mp.hostPort);
      volumes.CleanupVolumes(mp.pod.uid);
      return true;
    }

    method Status(key: Key, engines: set<string>, phase: Phase) returns (status: Option<PodStatus>)
      ensures status ==
              if key in pods then Some(StatusOf(pods[key], pods[key].engineType in engines, phase)) else None
      ensures status.Some? && true in status.value.containersReady ==> phase == Running && pods[key].ready
    {
      if key !in pods {
        return None;
      }
      var mp := pods[key];
      if mp.engineType !in engines {
        return Some(PodStatus(Failed, [], 0));
      }
      var containersReady := [];
      if |mp.pod.spec.containers| > 0 {
        containersReady := [mp.ready && phase == Running];
      }
      return Some(PodStatus(phase, containersReady, mp.hostPort));
    }

    // Every managed pod is terminated, in whatever order.
    method Shutdown() returns (ghost keys: seq<Key>)
      modifies this, portPool, volumes
      ensures forall k :: k in keys <==> k in old(pods)
      ensures Value() == AfterTerminates(old(Value()), keys)
    {
      var rest := pods.Keys;
      keys := [];
      while rest != {}
        invariant forall k :: k in old(pods) <==> k in rest || k in keys
        invariant Value() == AfterTerminates(old(Value()), keys)
        decreases |rest|
      {
        var k :| k in rest;
        var _ := Terminate(k);
        TerminateOneMore(old(Value()), keys, k);
        keys := keys + [k];
        rest := rest - {k};
      }
    }
  }

  lemma {:induction false} TerminateOneMore(node: Node, keys: seq<Key>, k: Key)
    ensures AfterTerminates(node, keys + [k]) == AfterTerminate(AfterTerminates(node, keys), k)
    decreases |keys|
  {
    if keys == [] {
      assert AfterTerminates(AfterTerminate(node, k), []) == AfterTerminate(node, k);
    } else {
      assert (keys + [k])[1..] == keys[1..] + [k];
      TerminateOneMore(AfterTerminate(node, keys[0]), keys[1..], k);
    }
  }

  // A launch enters one pod in the table or none, and changes nothing but the status of the caller's pod.
  lemma LaunchTable(node: Node, l: Launch)
    ensures AfterLaunch(node, l).pods ==
            if OutcomeOf(node, l) == Launched then
              node.pods[l.pod.key := ManagedBy(l, PortFor(node.pool, l.pod).1)]
            else node.pods
    ensures SeenAfter(node, l) == l.pod.(status := SeenAfter(node, l).status)
  {
  }

  // A launch that fails leaves no pod behind; past the first two stages it gives back the pod's port, if there
  // was one to give, and past the annotation it leaves nothing below the root of the pod's UID.
  lemma FailedLaunch(node: Node, l: Launch)
    requires Faithful(node.pool) && Positive(node.pool) && OutcomeOf(node, l) != Launched
    ensures var after, outcome := AfterLaunch(node, l), OutcomeOf(node, l);
      && after.pods == node.pods
      && after.pool == (if WantsPort(l.pod) && !outcome.AlreadyManaged? && !outcome.NoPort?
                        then Released(node.pool, l.pod.key) else node.pool)
      && (l.pod.key !in node.pool.held ==> after.pool == node.pool)
      && after.tree == (if outcome.AlreadyManaged? || outcome.NoPort? || outcome.BadAnnotation?
                        then node.tree else Cleaned(node.tree, l.pod.uid))
  {
    PositivePort(node.pool, l.pod.key);
  }

  // Terminating a pod that was just launched gives back exactly what the launch took.
  lemma LaunchThenTerminate(node: Node, l: Launch)
    requires Faithful(node.pool) && Positive(node.pool) && OutcomeOf(node, l) == Launched
    ensures AfterTerminate(AfterLaunch(node, l), l.pod.key)
         == Node(if WantsPort(l.pod) then Released(node.pool, l.pod.key) else node.pool,
                 Cleaned(node.tree, l.pod.uid), node.pods)
    ensures l.pod.key !in node.pool.held ==> AfterTerminate(AfterLaunch(node, l), l.pod.key).pool == node.pool
  {
    PositivePort(node.pool, l.pod.key);
    CleanedPlaced(node.tree, l.world.config, VolumesOf(l.pod), |l.pod.spec.volumes|);
    assert AfterLaunch(node, l).pods - {l.pod.key} == node.pods;
  }

  // In terms of what a launch is given -------------------------------------------------------------------

  lemma NoPortIff(node: Node, l: Launch)
    requires l.pod.key !in node.pods
    ensures OutcomeOf(node, l) == NoPort <==>
              && |l.pod.spec.containers| > 0 && |l.pod.spec.containers[0].ports| > 0
              && l.pod.key !in node.pool.held
              && forall p :: node.pool.minPort <= p <= node.pool.maxPort ==> p in node.pool.used
  {
    if l.pod.key !in node.pool.held {
      AllocateIsLeast(node.pool, l.pod.key);
    }
  }

  // Volume i can be projected: its directory can be made, its config map or secret is there, and every file of it
  // can be written.
  predicate VolumeGood(pod: Pod, world: World, i: nat)
    requires i < |pod.spec.volumes|
  {
    var ns, config, disk := pod.key.ns, world.config, world.disk;
    && i !in disk.badDirs
    && match pod.spec.volumes[i].source
       case NoSource => true
       case ConfigMapSource(name) =>
         Key(ns, name) in config.configMaps
         && forall file :: file in config.configMaps[Key(ns, name)] ==> (i, file) !in disk.badFiles
       case SecretSource(name) =>
         Key(ns, name) in config.secrets
         && forall file :: file in config.secrets[Key(ns, name)] ==> (i, file) !in disk.badFiles
  }

  lemma VolumesProjectIff(l: Launch)
    ensures CanProject(l.world.config, l.world.disk, VolumesOf(l.pod)) <==>
            l.pod.uid != "" && forall i :: 0 <= i < |l.pod.spec.volumes| ==> VolumeGood(l.pod, l.world, i)
  {
    forall i | 0 <= i < |l.pod.spec.volumes|
      ensures VolumeGood(l.pod, l.world, i) <==> Projects(l.world.config, l.world.disk, VolumesOf(l.pod), i)
    {
      match l.pod.spec.volumes[i].source {
        case NoSource =>
        case ConfigMapSource(name) =>
        case SecretSource(name) =>
      }
    }
  }

  // A launch of a pod that is not managed enters it exactly when it needs no container port or has or can have one,
  // its annotation parses, it has a UID and good volumes, its init containers succeed, and its engine is registered
  // and starts it.
  lemma LaunchEntersIff(node: Node, l: Launch)
    requires l.pod.key !in node.pods
    ensures l.pod.key in AfterLaunch(node, l).pods <==>
              && (|| |l.pod.spec.containers| == 0 || |l.pod.spec.containers[0].ports| == 0
                  || l.pod.key in node.pool.held
                  || exists p :: node.pool.minPort <= p <= node.pool.maxPort && p !in node.pool.used)
              && (l.pod.portAnnotation == None || l.world.containerPort != None)
              && l.pod.uid != "" && (forall i :: 0 <= i < |l.pod.spec.volumes| ==> VolumeGood(l.pod, l.world, i))
              && (|l.pod.spec.initContainers| == 0 || l.world.initOk)
              && l.engineType in l.world.engines && l.world.startOk
    ensures l.pod.key in AfterLaunch(node, l).pods <==> OutcomeOf(node, l) == Launched
  {
    NoPortIff(node, l);
    VolumesProjectIff(l);
    LaunchTable(node, l);
  }

  // The outcome names the first thing that fails.
  lemma OutcomeNamesFirstFailure(node: Node, l: Launch)
    ensures OutcomeOf(node, l) ==
      if l.pod.key in node.pods then AlreadyManaged
      else if |l.pod.spec.containers| > 0 && |l.pod.spec.containers[0].ports| > 0 && l.pod.key !in node.pool.held
              && forall p :: node.pool.minPort <= p <= node.pool.maxPort ==> p in node.pool.used then NoPort
      else if l.pod.portAnnotation != None && l.world.containerPort == None then BadAnnotation
      else if l.pod.uid == "" || exists i :: 0 <= i < |l.pod.spec.volumes| && !VolumeGood(l.pod, l.world, i)
        then VolumesFailed
      else if |l.pod.spec.initContainers| > 0 && !l.world.initOk then InitFailed
      else if l.engineType !in l.world.engines then NoEngine
      else if !l.world.startOk then StartFailed
      else Launched
  {
    if l.pod.key !in node.pods {
      NoPortIff(node, l);
      VolumesProjectIff(l);
    }
  }

  // The port a launched pod gets: the one its key holds already, or else the least free one of the range; none
  // without container ports.
  ghost predicate GetsPort(node: Node, l: Launch, port: int) {
    if |l.pod.spec.containers| == 0 || |l.pod.spec.containers[0].ports| == 0 then port == 0
    else if l.pod.key in node.pool.held then port == node.pool.held[l.pod.key]
    else
      && node.pool.minPort <= port <= node.pool.maxPort && port !in node.pool.used
      && forall p :: node.pool.minPort <= p < port ==> p in node.pool.used
  }

  // A launched pod is entered with its engine, its port and its volumes, ready and never restarted.  While its engine
  // reports it running it shows its port and, if it has containers, as ready; otherwise not ready.
  lemma LaunchedShows(node: Node, l: Launch, phase: Phase)
    requires OutcomeOf(node, l) == Launched
    ensures l.pod.key in AfterLaunch(node, l).pods
    ensures var mp := AfterLaunch(node, l).pods[l.pod.key];
      && GetsPort(node, l, mp.hostPort)
      && (mp.hostPort > 0 ==> HeldBy(AfterLaunch(node, l).pool, l.pod.key) == Some(mp.hostPort))
      && mp.pod == (if mp.hostPort > 0 then l.pod.(status := l.pod.status.(hostPort := mp.hostPort)) else l.pod)
      && mp.engineType == l.engineType && mp.target == l.target && mp.restartCount == 0
      && StatusOf(mp, true, phase) ==
           PodStatus(phase, if |l.pod.spec.containers| == 0 then [] else if phase == Running then [true] else [false],
                     mp.hostPort)
      && StatusOf(mp, false, phase) == PodStatus(Failed, [], 0)
  {
    if l.pod.key !in node.pool.held {
      AllocateIsLeast(node.pool, l.pod.key);
    }
  }

  // A pod is proxied when its annotation names a positive port other than its own, and the proxy can be started.
  lemma LaunchedIsProxiedIff(node: Node, l: Launch)
    requires OutcomeOf(node, l) == Launched
    ensures var mp := AfterLaunch(node, l).pods[l.pod.key];
      mp.proxied <==>
        && mp.hostPort > 0 && l.pod.portAnnotation != None && l.world.proxyOk
        && l.world.containerPort.Some? && l.world.containerPort.value > 0
        && l.world.containerPort.value != mp.hostPort
  {
  }

  // The files of its config maps and secrets are in place; each volume is mounted from its directory.
  lemma LaunchedVolumes(node: Node, l: Launch, i: nat, file: string)
    requires OutcomeOf(node, l) == Launched && i < |l.pod.spec.volumes|
    requires forall j :: i < j < |l.pod.spec.volumes| ==> l.pod.spec.volumes[j].name != l.pod.spec.volumes[i].name
    ensures var ns, config, name := l.pod.key.ns, l.world.config, l.pod.spec.volumes[i].name;
      var after, dir := AfterLaunch(node, l), Dir(l.pod.uid, l.pod.spec.volumes[i].name);
      && name in after.pods[l.pod.key].projected && after.pods[l.pod.key].projected[name] == dir
      && match l.pod.spec.volumes[i].source
         case NoSource => true
         case ConfigMapSource(source) =>
           && Key(ns, source) in config.configMaps
           && (file in config.configMaps[Key(ns, source)] ==>
                 Content(after.tree, dir, file) == Some(config.configMaps[Key(ns, source)][file]))
         case SecretSource(source) =>
           && Key(ns, source) in config.secrets
           && (file in config.secrets[Key(ns, source)] ==>
                 Content(after.tree, dir, file) == Some(config.secrets[Key(ns, source)][file]))
  {
    var r, n := VolumesOf(l.pod), |l.pod.spec.volumes|;
    VolumesProjectIff(l);
    assert VolumeGood(l.pod, l.world, i);
    MountsAre(r, n, l.pod.spec.volumes[i].name);
    if Holds(l.world.config, r, i, Dir(l.pod.uid, l.pod.spec.volumes[i].name), file) {
      PlacedContent(node.tree, l.world.config, r, n, i, Dir(l.pod.uid, l.pod.spec.volumes[i].name), file);
    }
  }
}
