// What deleting a deployment removes, and what it leaves (api/deployment_handler.go, api/server.go).
module CascadeDelete {
  import opened ApiServer
  import opened ApiTypes
  import opened ControllerStore
  import opened Lifecycle
  import opened Ports
  import opened ReplicaSetController
  import opened Volumes

  // A deleted pod is neither stored nor managed and, if it was managed with a port, holds none.
  lemma {:induction false} DeletedIsGone(st: ServerState, keys: seq<Key>, k: Key)
    requires k in keys
    ensures var after := AfterDeletePods(st, keys);
      && k !in after.stored && k !in after.node.pods
      && (k in st.node.pods && st.node.pods[k].hostPort > 0 ==> k !in after.node.pool.held)
    decreases |keys|
  {
    var next := AfterDeletePod(st, keys[0]);
    if k == keys[0] {
      StaysGone(next, keys[1..], k);
    } else {
      DeletedIsGone(next, keys[1..], k);
    }
  }

  lemma {:induction false} StaysGone(st: ServerState, keys: seq<Key>, k: Key)
    requires k !in st.stored && k !in st.node.pods
    ensures var after := AfterDeletePods(st, keys);
      && k !in after.stored && k !in after.node.pods
      && (k !in st.node.pool.held ==> k !in after.node.pool.held)
    decreases |keys|
  {
    if keys != [] {
      StaysGone(AfterDeletePod(st, keys[0]), keys[1..], k);
    }
  }

  // Any other pod is stored, managed and holding as before.
  lemma {:induction false} OthersAreKept(st: ServerState, keys: seq<Key>, k: Key)
    requires k !in keys
    ensures var after := AfterDeletePods(st, keys);
      && (k in after.stored <==> k in st.stored) && (k in st.stored ==> after.stored[k] == st.stored[k])
      && (k in after.node.pods <==> k in st.node.pods) && (k in st.node.pods ==> after.node.pods[k] == st.node.pods[k])
      && HeldBy(after.node.pool, k) == HeldBy(st.node.pool, k)
      && after.live == st.live
    decreases |keys|
  {
    if keys != [] {
      OthersAreKept(AfterDeletePod(st, keys[0]), keys[1..], k);
    }
  }

  // The volumes below any other pod's UID are as before.
  lemma {:induction false} OtherVolumesAreKept(st: ServerState, keys: seq<Key>, dir: Dir)
    requires forall k :: k in keys && k in st.node.pods ==> st.node.pods[k].pod.uid != dir.uid
    ensures var after := AfterDeletePods(st, keys);
      && (dir in after.node.tree <==> dir in st.node.tree)
      && (dir in st.node.tree ==> after.node.tree[dir] == st.node.tree[dir])
    decreases |keys|
  {
    if keys != [] {
      OtherVolumesAreKept(AfterDeletePod(st, keys[0]), keys[1..], dir);
    }
  }

  // Every managed pod is stored, with the same owner.
  ghost predicate Tracked(st: ServerState) {
    forall k :: k in st.node.pods ==> k in st.stored && st.stored[k].owner == st.node.pods[k].pod.owner
  }

  ghost predicate WellKeyed(st: ServerState) {
    && (forall k :: k in st.stored ==> st.stored[k].key == k)
    && (forall k :: k in st.node.pods ==> st.node.pods[k].pod.key == k)
  }

  // Runs of launches and deletions -----------------------------------------------------------------------

  datatype ServerStep = LaunchStep(pod: Pod, a: Attempt) | DeleteStep(k: Key)

  function AfterStep(st: ServerState, step: ServerStep): ServerState {
    match step
    case LaunchStep(pod, a) => AfterLaunchPod(st, pod, a)
    case DeleteStep(k) => AfterDeletePod(st, k)
  }

  function AfterSteps(st: ServerState, steps: seq<ServerStep>): ServerState
    decreases |steps|
  {
    if steps == [] then st else AfterSteps(AfterStep(st, steps[0]), steps[1..])
  }

  // A launch under the key of a managed pod with another owner.
  predicate TakesKey(st: ServerState, step: ServerStep) {
    step.LaunchStep? && step.pod.key in st.node.pods && step.pod.owner != st.node.pods[step.pod.key].pod.owner
  }

  predicate OwnersKept(st: ServerState, steps: seq<ServerStep>)
    decreases |steps|
  {
    steps == [] || (!TakesKey(st, steps[0]) && OwnersKept(AfterStep(st, steps[0]), steps[1..]))
  }

  ghost predicate AlwaysTracked(st: ServerState, steps: seq<ServerStep>)
    decreases |steps|
  {
    Tracked(st) && (steps == [] || AlwaysTracked(AfterStep(st, steps[0]), steps[1..]))
  }

  // What a launch does to the table and to the stored pods.
  lemma LaunchEffect(st: ServerState, pod: Pod, a: Attempt)
    ensures var after := AfterLaunchPod(st, pod, a);
      && pod.key in after.stored && after.stored == st.stored[pod.key := after.stored[pod.key]]
      && after.stored[pod.key].owner == pod.owner && after.stored[pod.key].key == pod.key
      && (after.node.pods == st.node.pods ||
          (pod.key !in st.node.pods && pod.key in after.node.pods
           && after.node.pods == st.node.pods[pod.key := after.node.pods[pod.key]]
           && after.node.pods[pod.key].pod.owner == pod.owner && after.node.pods[pod.key].pod.key == pod.key))
  {
    match a.engine
    case None =>
    case Some(engine) => LaunchTable(st.node, LaunchOf(pod, engine, a.world));
  }

  // A launch keeps managed pods tracked exactly when it does not take a key: such a launch fails, but what is
  // stored has been replaced by then.
  lemma LaunchTracked(st: ServerState, pod: Pod, a: Attempt)
    requires Tracked(st)
    ensures Tracked(AfterLaunchPod(st, pod, a)) <==> !TakesKey(st, LaunchStep(pod, a))
  {
    LaunchEffect(st, pod, a);
    TrackedOrTaken(st, AfterLaunchPod(st, pod, a), pod);
  }

  lemma TrackedOrTaken(st: ServerState, after: ServerState, pod: Pod)
    requires Tracked(st)
    requires pod.key in after.stored && after.stored == st.stored[pod.key := after.stored[pod.key]]
    requires after.stored[pod.key].owner == pod.owner
    requires after.node.pods == st.node.pods ||
             (pod.key !in st.node.pods && pod.key in after.node.pods
              && after.node.pods == st.node.pods[pod.key := after.node.pods[pod.key]]
              && after.node.pods[pod.key].pod.owner == pod.owner)
    ensures Tracked(after) <==> (pod.key in st.node.pods ==> pod.owner == st.node.pods[pod.key].pod.owner)
  {
    if pod.key in st.node.pods {
      assert after.node.pods == st.node.pods;
    }
  }

  lemma StepTracked(st: ServerState, step: ServerStep)
    requires Tracked(st)
    ensures Tracked(AfterStep(st, step)) <==> !TakesKey(st, step)
  {
    match step
    case LaunchStep(pod, a) => LaunchTracked(st, pod, a);
    case DeleteStep(k) =>
  }

  lemma {:induction false} DeletesTracked(st: ServerState, keys: seq<Key>)
    requires Tracked(st)
    ensures Tracked(AfterDeletePods(st, keys))
    decreases |keys|
  {
    if keys != [] {
      DeletesTracked(AfterDeletePod(st, keys[0]), keys[1..]);
    }
  }

  // Over a run managed pods are tracked all the time exactly when no launch takes a key.
  lemma {:induction false} TrackedIffOwnersKept(st: ServerState, steps: seq<ServerStep>)
    requires Tracked(st)
    ensures AlwaysTracked(st, steps) <==> OwnersKept(st, steps)
    decreases |steps|
  {
    if steps != [] {
      StepTracked(st, steps[0]);
      if !TakesKey(st, steps[0]) {
        TrackedIffOwnersKept(AfterStep(st, steps[0]), steps[1..]);
      }
    }
  }

  lemma {:induction false} TrackedAtEnd(st: ServerState, steps: seq<ServerStep>)
    requires AlwaysTracked(st, steps)
    ensures Tracked(AfterSteps(st, steps))
    decreases |steps|
  {
    if steps != [] {
      TrackedAtEnd(AfterStep(st, steps[0]), steps[1..]);
    }
  }

  lemma StepKeyed(st: ServerState, step: ServerStep)
    requires WellKeyed(st)
    ensures WellKeyed(AfterStep(st, step))
  {
    match step
    case LaunchStep(pod, a) => LaunchEffect(st, pod, a);
    case DeleteStep(k) =>
  }

  lemma {:induction false} RunKeyed(st: ServerState, steps: seq<ServerStep>)
    requires WellKeyed(st)
    ensures WellKeyed(AfterSteps(st, steps))
    decreases |steps|
  {
    if steps != [] {
      StepKeyed(st, steps[0]);
      RunKeyed(AfterStep(st, steps[0]), steps[1..]);
    }
  }

  // Cascading deletion -----------------------------------------------------------------------------------

  // The handler deleted exactly the deployment's pods, under these keys, and its ReplicaSets.
  ghost predicate Handled(
    st: ServerState, keys: seq<Key>, rss: map<Key, ReplicaSet>, rss': map<Key, ReplicaSet>, dep: Key)
  {
    && (forall k :: k in keys <==> k in st.stored && Doomed(st.stored[k], rss, dep))
    && (forall r :: r in rss' <==> r in rss && !OwnedByDeployment(rss[r], dep))
  }

  // No pod of the deployment is stored, managed or holds the port it had; every other pod and pool entry is as it
  // was.
  ghost predicate CompleteAndPrecise(
    st: ServerState, after: ServerState, keys: seq<Key>, rss: map<Key, ReplicaSet>, dep: Key)
  {
    && (forall k :: k in after.stored ==> !Doomed(after.stored[k], rss, dep))
    && (forall k :: k in after.node.pods ==> !Doomed(after.node.pods[k].pod, rss, dep))
    && (forall k :: k in st.stored && !Doomed(st.stored[k], rss, dep) ==>
          k in after.stored && after.stored[k] == st.stored[k])
    && (forall k :: k in st.node.pods && !Doomed(st.node.pods[k].pod, rss, dep) ==>
          k in after.node.pods && after.node.pods[k] == st.node.pods[k])
    && (forall k :: k !in keys ==> HeldBy(after.node.pool, k) == HeldBy(st.node.pool, k))
    && (forall k :: k in keys && k in st.node.pods && st.node.pods[k].hostPort > 0 ==>
          HeldBy(after.node.pool, k) == None)
  }

  // The pods deleted, in a deployment with a namespace, are those of its namespace whose owner is a ReplicaSet of the
  // namespace that it owns.
  lemma DeletedKeys(
    st: ServerState, keys: seq<Key>, rss: map<Key, ReplicaSet>, rss': map<Key, ReplicaSet>, dep: Key, k: Key)
    requires Handled(st, keys, rss, rss', dep) && KeyedPods(st.stored) && KeyedReplicaSets(rss) && dep.ns != ""
    ensures k in keys <==>
              && k in st.stored && k.ns == dep.ns && st.stored[k].owner.ReplicaSetOwner?
              && Key(dep.ns, st.stored[k].owner.name) in rss
              && rss[Key(dep.ns, st.stored[k].owner.name)].owner == DeploymentOwner(dep.name)
  {
    if k in st.stored {
      DoomedIs(st.stored[k], rss, dep);
    }
  }

  // A pod of another namespace, and one whose owner is no ReplicaSet of the deployment, is stored and managed as
  // before, and holds its port.
  lemma OtherNamespacesAreKept(
    st: ServerState, keys: seq<Key>, rss: map<Key, ReplicaSet>, rss': map<Key, ReplicaSet>, dep: Key, k: Key)
    requires Handled(st, keys, rss, rss', dep) && KeyedPods(st.stored) && KeyedReplicaSets(rss) && dep.ns != ""
    requires k in st.stored ==>
               || k.ns != dep.ns || !st.stored[k].owner.ReplicaSetOwner?
               || Key(k.ns, st.stored[k].owner.name) !in rss
               || rss[Key(k.ns, st.stored[k].owner.name)].owner != DeploymentOwner(dep.name)
    ensures var after := AfterDeletePods(st, keys);
      && (k in st.stored ==> k in after.stored && after.stored[k] == st.stored[k])
      && (k in st.node.pods ==> k in after.node.pods && after.node.pods[k] == st.node.pods[k])
      && (k in st.node.pool.held ==> k in after.node.pool.held && after.node.pool.held[k] == st.node.pool.held[k])
  {
    DeletedKeys(st, keys, rss, rss', dep, k);
    OthersAreKept(st, keys, k);
  }

  // The ReplicaSets that go are those of the namespace that the deployment owns.
  lemma DeletedReplicaSets(
    st: ServerState, keys: seq<Key>, rss: map<Key, ReplicaSet>, rss': map<Key, ReplicaSet>, dep: Key, r: Key)
    requires Handled(st, keys, rss, rss', dep) && KeyedReplicaSets(rss) && dep.ns != "" && r in rss
    ensures r !in rss' <==> r.ns == dep.ns && rss[r].owner == DeploymentOwner(dep.name)
  {
  }

  // What the deletion needs: for every managed pod, its stored owner is its own as far as ReplicaSets go.
  predicate SeenAt(st: ServerState, k: Key)
    requires k in st.node.pods
  {
    var owner := st.node.pods[k].pod.owner;
    if k in st.stored then
      owner.ReplicaSetOwner? || st.stored[k].owner.ReplicaSetOwner? ==> st.stored[k].owner == owner
    else !owner.ReplicaSetOwner?
  }

  ghost predicate Seen(st: ServerState) {
    forall k :: k in st.node.pods ==> SeenAt(st, k)
  }

  lemma TrackedIsSeen(st: ServerState)
    requires Tracked(st)
    ensures Seen(st)
  {
  }

  lemma SeenKeys(
    st: ServerState, keys: seq<Key>, rss: map<Key, ReplicaSet>, rss': map<Key, ReplicaSet>, dep: Key, k: Key)
    requires Seen(st) && WellKeyed(st) && Handled(st, keys, rss, rss', dep) && k in st.node.pods
    ensures k in keys <==> Doomed(st.node.pods[k].pod, rss, dep)
  {
    assert SeenAt(st, k);
    if k in st.stored && st.stored[k].owner == st.node.pods[k].pod.owner {
      SameOwnerSameDoom(st.stored[k], st.node.pods[k].pod, rss, dep);
    }
  }

  lemma SeenIsCompleteAndPrecise(
    st: ServerState, keys: seq<Key>, rss: map<Key, ReplicaSet>, rss': map<Key, ReplicaSet>, dep: Key)
    requires Seen(st) && WellKeyed(st) && Handled(st, keys, rss, rss', dep)
    ensures CompleteAndPrecise(st, AfterDeletePods(st, keys), keys, rss, dep)
  {
    var after := AfterDeletePods(st, keys);
    forall k | k in st.node.pods
      ensures k in keys <==> Doomed(st.node.pods[k].pod, rss, dep)
    {
      SeenKeys(st, keys, rss, rss', dep, k);
    }
    forall k
      ensures k in keys ==>
                && k !in after.stored && k !in after.node.pods
                && (k in st.node.pods && st.node.pods[k].hostPort > 0 ==> HeldBy(after.node.pool, k) == None)
      ensures k !in keys ==>
                && (k in after.stored <==> k in st.stored) && (k in st.stored ==> after.stored[k] == st.stored[k])
                && (k in after.node.pods <==> k in st.node.pods)
                && (k in st.node.pods ==> after.node.pods[k] == st.node.pods[k])
                && HeldBy(after.node.pool, k) == HeldBy(st.node.pool, k)
    {
      if k in keys {
        DeletedIsGone(st, keys, k);
      } else {
        OthersAreKept(st, keys, k);
      }
    }
  }

  // Where every managed pod is seen, a deployment's deletion ends the management of exactly its own pods.
  lemma EndsOwnPods(
    st: ServerState, keys: seq<Key>, rss: map<Key, ReplicaSet>, rss': map<Key, ReplicaSet>, dep: Key, k: Key)
    requires Seen(st) && WellKeyed(st) && Handled(st, keys, rss, rss', dep)
    requires KeyedReplicaSets(rss) && dep.ns != "" && k in st.node.pods
    ensures k !in AfterDeletePods(st, keys).node.pods <==>
              var owner := st.node.pods[k].pod.owner;
              && k.ns == dep.ns && owner.ReplicaSetOwner?
              && Key(dep.ns, owner.name) in rss && rss[Key(dep.ns, owner.name)].owner == DeploymentOwner(dep.name)
  {
    SeenKeys(st, keys, rss, rss', dep, k);
    DoomedIs(st.node.pods[k].pod, rss, dep);
    if k in keys {
      DeletedIsGone(st, keys, k);
    } else {
      OthersAreKept(st, keys, k);
    }
  }

  lemma DeleteIsCompleteAndPrecise(
    st: ServerState, keys: seq<Key>, rss: map<Key, ReplicaSet>, rss': map<Key, ReplicaSet>, dep: Key)
    requires Tracked(st) && WellKeyed(st) && Handled(st, keys, rss, rss', dep)
    ensures CompleteAndPrecise(st, AfterDeletePods(st, keys), keys, rss, dep)
  {
    TrackedIsSeen(st);
    SeenIsCompleteAndPrecise(st, keys, rss, rss', dep);
  }

  // One deletion that the handler may have done.
  datatype Deletion = Deletion(
    keys: seq<Key>, rss: map<Key, ReplicaSet>, rss': map<Key, ReplicaSet>, dep: Key)

  ghost predicate HandledBy(st: ServerState, d: Deletion) {
    Handled(st, d.keys, d.rss, d.rss', d.dep)
  }

  ghost predicate CompleteBy(st: ServerState, d: Deletion) {
    CompleteAndPrecise(st, AfterDeletePods(st, d.keys), d.keys, d.rss, d.dep)
  }

  ghost predicate AlwaysComplete(st: ServerState) {
    forall d :: HandledBy(st, d) ==> CompleteBy(st, d)
  }

  // Whatever deployment is deleted, with whatever ReplicaSets, the deletion is complete and precise exactly when
  // every managed pod is seen.
  lemma CompleteIff(st: ServerState)
    requires WellKeyed(st)
    ensures AlwaysComplete(st) <==> Seen(st)
  {
    if Seen(st) {
      forall d | HandledBy(st, d)
        ensures CompleteBy(st, d)
      {
        SeenIsCompleteAndPrecise(st, d.keys, d.rss, d.rss', d.dep);
      }
    } else {
      var k :| k in st.node.pods && !SeenAt(st, k);
      var owner := st.node.pods[k].pod.owner;
      var d := IncompleteDeletion(st, k, if owner.ReplicaSetOwner? then owner else st.stored[k].owner);
    }
  }

  // A deployment with one ReplicaSet of the given name.
  function OneReplicaSet(k: Key): map<Key, ReplicaSet> {
    map[k := ReplicaSet(k, map[], DeploymentOwner("d"), None, PodTemplate(map[], None, PodSpec([], [], "", [])),
                        ReplicaSetStatus(0, 0, 0))]
  }

  lemma DoomedByOne(pod: Pod, r: Key)
    requires pod.key.ns == r.ns
    ensures Doomed(pod, OneReplicaSet(r), Key(r.ns, "d")) <==> pod.owner == ReplicaSetOwner(r.name)
  {
    if pod.owner == ReplicaSetOwner(r.name) {
      assert OwnedByDeployment(OneReplicaSet(r)[r], Key(r.ns, "d")) && OwnedByReplicaSet(pod, r);
    }
  }

  lemma IncompleteDeletion(st: ServerState, k: Key, owner: Owner) returns (d: Deletion)
    requires WellKeyed(st) && k in st.node.pods && !SeenAt(st, k) && owner.ReplicaSetOwner?
    requires st.node.pods[k].pod.owner == owner || (k in st.stored && st.stored[k].owner == owner)
    ensures HandledBy(st, d) && !CompleteBy(st, d)
  {
    var r, dep := Key(k.ns, owner.name), Key(k.ns, "d");
    var keys := Enumeration(set j | j in st.stored && Doomed(st.stored[j], OneReplicaSet(r), dep));
    d := Deletion(keys, OneReplicaSet(r), map[], dep);
    assert OwnedByDeployment(OneReplicaSet(r)[r], dep);
    DoomedByOne(st.node.pods[k].pod, r);
    if k in st.stored {
      DoomedByOne(st.stored[k], r);
    }
    if k in keys {
      DeletedIsGone(st, keys, k);
    } else {
      OthersAreKept(st, keys, k);
    }
  }

  lemma {:induction false} Enumeration(keys: set<Key>) returns (list: seq<Key>)
    ensures forall k :: k in list <==> k in keys
    decreases |keys|
  {
    list := [];
    if |keys| > 0 {
      var k :| k in keys;
      list := Enumeration(keys - {k});
      list := [k] + list;
    }
  }

  // A launch under the key of a managed pod of a ReplicaSet, for a pod of nobody: it fails, and the managed pod
  // outlives the deletion of its deployment.
  function PlainPod(k: Key, owner: Owner): Pod {
    Pod(k, "u", map[], owner, None, PodSpec([], [], "", []), PodStatus(NoPhase, [], 0))
  }

  function TakenOver(minPort: int, maxPort: int, k: Key, rs: string): ServerState {
    AfterSteps(EmptyServer(minPort, maxPort),
               [LaunchStep(PlainPod(k, ReplicaSetOwner(rs)), CALM)] + ([LaunchStep(PlainPod(k, Unowned), CALM)] + []))
  }

  lemma FirstOf(st: ServerState, step: ServerStep, rest: seq<ServerStep>)
    ensures AfterSteps(st, [step] + rest) == AfterSteps(AfterStep(st, step), rest)
  {
    assert ([step] + rest)[1..] == rest;
  }

  lemma OutlivesItsDeployment(minPort: int, maxPort: int, k: Key, rs: string)
    ensures var st, rss, dep := TakenOver(minPort, maxPort, k, rs), OneReplicaSet(Key(k.ns, rs)), Key(k.ns, "d");
      && Handled(st, [], rss, map[], dep)
      && k in AfterDeletePods(st, []).node.pods
      && Doomed(AfterDeletePods(st, []).node.pods[k].pod, rss, dep)
  {
    var owned, taken := PlainPod(k, ReplicaSetOwner(rs)), PlainPod(k, Unowned);
    var s0 := EmptyServer(minPort, maxPort);
    var s1 := AfterStep(s0, LaunchStep(owned, CALM));
    var s2 := AfterStep(s1, LaunchStep(taken, CALM));
    FirstOf(s0, LaunchStep(owned, CALM), [LaunchStep(taken, CALM)] + []);
    FirstOf(s1, LaunchStep(taken, CALM), []);
    LaunchTable(s0.node, LaunchOf(owned, CALM.engine.value, CALM.world));
    LaunchEffect(s0, owned, CALM);
    LaunchEffect(s1, taken, CALM);
    DoomedByOne(s2.node.pods[k].pod, Key(k.ns, rs));
    DoomedByOne(s2.stored[k], Key(k.ns, rs));
    assert OwnedByDeployment(OneReplicaSet(Key(k.ns, rs))[Key(k.ns, rs)], Key(k.ns, "d"));
  }

  // After any run of launches and deletions in which no launch takes a key, deleting a deployment is complete and
  // precise.
  lemma DeleteAfterRun(
    minPort: int, maxPort: int, steps: seq<ServerStep>, keys: seq<Key>, rss: map<Key, ReplicaSet>,
    rss': map<Key, ReplicaSet>, dep: Key)
    requires OwnersKept(EmptyServer(minPort, maxPort), steps)
    requires Handled(AfterSteps(EmptyServer(minPort, maxPort), steps), keys, rss, rss', dep)
    ensures var st := AfterSteps(EmptyServer(minPort, maxPort), steps);
      CompleteAndPrecise(st, AfterDeletePods(st, keys), keys, rss, dep)
  {
    var empty := EmptyServer(minPort, maxPort);
    TrackedIffOwnersKept(empty, steps);
    TrackedAtEnd(empty, steps);
    RunKeyed(empty, steps);
    DeleteIsCompleteAndPrecise(AfterSteps(empty, steps), keys, rss, rss', dep);
  }

  // After any run at all, every deletion is complete and precise exactly when every managed pod is seen.
  lemma CompleteAfterRunIff(minPort: int, maxPort: int, steps: seq<ServerStep>)
    ensures var st := AfterSteps(EmptyServer(minPort, maxPort), steps);
      AlwaysComplete(st) <==> Seen(st)
  {
    RunKeyed(EmptyServer(minPort, maxPort), steps);
    CompleteIff(AfterSteps(EmptyServer(minPort, maxPort), steps));
  }

  lemma SameOwnerSameDoom(pod: Pod, other: Pod, rss: map<Key, ReplicaSet>, dep: Key)
    requires pod.key == other.key && pod.owner == other.owner
    ensures Doomed(pod, rss, dep) <==> Doomed(other, rss, dep)
  {
    if Doomed(pod, rss, dep) {
      var r :| r in rss && OwnedByDeployment(rss[r], dep) && OwnedByReplicaSet(pod, r);
      assert OwnedByReplicaSet(other, r);
    }
    if Doomed(other, rss, dep) {
      var r :| r in rss && OwnedByDeployment(rss[r], dep) && OwnedByReplicaSet(other, r);
      assert OwnedByReplicaSet(pod, r);
    }
  }
}
