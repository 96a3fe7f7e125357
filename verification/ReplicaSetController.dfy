// One reconcile of a ReplicaSet (controller/replicaset.go): its active pods are counted, the missing ones
// launched or the surplus ones deleted, and the status written.
module ReplicaSetController {
  import opened ApiTypes
  import opened ControllerStore
  import opened Totals

  // The replica count that the ReplicaSet controller reads.
  function Wanted(rs: ReplicaSet): int {
    ValueOr(rs.replicas, 1)
  }

  ghost predicate KeyedPods(pods: map<Key, Pod>) {
    forall p :: p in pods ==> pods[p].key == p
  }

  predicate OwnedActive(pod: Pod, rsKey: Key) {
    InNamespace(pod.key, rsKey.ns) && pod.owner == ReplicaSetOwner(rsKey.name) && pod.Active()
  }

  ghost function ActiveOf(pods: map<Key, Pod>, rsKey: Key): set<Key> {
    set p | p in pods && OwnedActive(pods[p], rsKey)
  }

  ghost function ReadyOf(pods: map<Key, Pod>, rsKey: Key): set<Key> {
    set p | p in pods && OwnedActive(pods[p], rsKey) && pods[p].Ready()
  }

  ghost predicate DistinctPods(list: seq<Pod>) {
    forall i, j :: 0 <= i < j < |list| ==> list[i].key != list[j].key
  }

  ghost predicate IsPodListing(list: seq<Pod>, pods: map<Key, Pod>, ns: string) {
    && (forall i :: 0 <= i < |list| ==>
          list[i].key in pods && pods[list[i].key] == list[i] && InNamespace(list[i].key, ns))
    && DistinctPods(list)
    && (forall p :: p in pods && InNamespace(p, ns) ==> pods[p] in list)
  }

  lemma PodListOneMore(list: seq<Pod>, pods: map<Key, Pod>, ns: string, rest: set<Key>, k: Key)
    requires KeyedPods(pods) && k in rest && rest <= pods.Keys && IsPodListing(list, pods - rest, ns)
    ensures IsPodListing(if InNamespace(k, ns) then list + [pods[k]] else list, pods - (rest - {k}), ns)
  {
    var now := if InNamespace(k, ns) then list + [pods[k]] else list;
    forall j | j in pods - (rest - {k}) && InNamespace(j, ns)
      ensures pods[j] in now
    {
      if j == k {
        assert now[|now| - 1] == pods[k];
      } else {
        assert j in pods - rest;
      }
    }
  }

  // The loop over a map of pods, whose order is not fixed.
  method Listed(pods: map<Key, Pod>, ns: string) returns (list: seq<Pod>)
    requires KeyedPods(pods)
    ensures IsPodListing(list, pods, ns)
  {
    list := [];
    var rest := pods.Keys;
    while rest != {}
      invariant rest <= pods.Keys
      invariant IsPodListing(list, pods - rest, ns)
      decreases |rest|
    {
      var k :| k in rest;
      PodListOneMore(list, pods, ns, rest, k);
      rest := rest - {k};
      if InNamespace(k, ns) {
        list := list + [pods[k]];
      }
    }
    assert pods - {} == pods;
  }

  // The active pods among the first n listed, and the keys of the ready ones.
  function Actives(list: seq<Pod>, rsKey: Key, n: nat): seq<Pod>
    requires n <= |list|
  {
    if n == 0 then []
    else Actives(list, rsKey, n - 1) + if OwnedActive(list[n - 1], rsKey) then [list[n - 1]] else []
  }

  ghost function ReadyKeys(list: seq<Pod>, rsKey: Key, n: nat): set<Key>
    requires n <= |list|
  {
    if n == 0 then {}
    else ReadyKeys(list, rsKey, n - 1) +
         if OwnedActive(list[n - 1], rsKey) && list[n - 1].Ready() then {list[n - 1].key} else {}
  }

  lemma {:induction false} ReadyKeysHas(list: seq<Pod>, rsKey: Key, n: nat, p: Key)
    requires n <= |list| && DistinctPods(list)
    ensures p in ReadyKeys(list, rsKey, n) <==>
            exists i :: 0 <= i < n && list[i].key == p && OwnedActive(list[i], rsKey) && list[i].Ready()
  {
    if n > 0 {
      ReadyKeysHas(list, rsKey, n - 1, p);
    }
  }

  lemma {:induction false} ActivesHas(list: seq<Pod>, rsKey: Key, n: nat, pod: Pod)
    requires n <= |list|
    ensures pod in Actives(list, rsKey, n) <==> exists i :: 0 <= i < n && list[i] == pod && OwnedActive(pod, rsKey)
  {
    if n > 0 {
      ActivesHas(list, rsKey, n - 1, pod);
    }
  }

  lemma {:induction false} ActivesDistinct(list: seq<Pod>, rsKey: Key, n: nat)
    requires n <= |list| && DistinctPods(list)
    ensures DistinctPods(Actives(list, rsKey, n))
  {
    if n > 0 {
      var front := Actives(list, rsKey, n - 1);
      ActivesDistinct(list, rsKey, n - 1);
      forall i | 0 <= i < |front|
        ensures front[i].key != list[n - 1].key
      {
        ActivesHas(list, rsKey, n - 1, front[i]);
      }
    }
  }

  lemma {:induction false} AsManyKeys(list: seq<Pod>, keys: set<Key>)
    requires DistinctPods(list)
    requires forall i :: 0 <= i < |list| ==> list[i].key in keys
    requires forall k :: k in keys ==> exists i :: 0 <= i < |list| && list[i].key == k
    ensures |list| == |keys|
  {
    if list == [] {
      assert keys == {};
    } else {
      var last := |list| - 1;
      forall k | k in keys - {list[last].key}
        ensures exists i :: 0 <= i < last && list[..last][i].key == k
      {
        var i :| 0 <= i < |list| && list[i].key == k;
        assert list[..last][i].key == k;
      }
      AsManyKeys(list[..last], keys - {list[last].key});
    }
  }

  // A listing shows every active pod once.
  lemma ActivesListed(pods: map<Key, Pod>, list: seq<Pod>, rsKey: Key)
    requires KeyedPods(pods) && IsPodListing(list, pods, rsKey.ns)
    ensures DistinctPods(Actives(list, rsKey, |list|))
    ensures forall i :: 0 <= i < |Actives(list, rsKey, |list|)| ==>
              Actives(list, rsKey, |list|)[i].key in ActiveOf(pods, rsKey)
    ensures |Actives(list, rsKey, |list|)| == |ActiveOf(pods, rsKey)|
  {
    var actives := Actives(list, rsKey, |list|);
    ActivesDistinct(list, rsKey, |list|);
    forall i | 0 <= i < |actives|
      ensures actives[i].key in ActiveOf(pods, rsKey)
    {
      ActivesHas(list, rsKey, |list|, actives[i]);
    }
    forall p | p in ActiveOf(pods, rsKey)
      ensures exists i :: 0 <= i < |actives| && actives[i].key == p
    {
      assert pods[p] in list;
      ActivesHas(list, rsKey, |list|, pods[p]);
    }
    AsManyKeys(actives, ActiveOf(pods, rsKey));
  }

  lemma ReadyListed(pods: map<Key, Pod>, list: seq<Pod>, rsKey: Key)
    requires KeyedPods(pods) && IsPodListing(list, pods, rsKey.ns)
    ensures ReadyKeys(list, rsKey, |list|) == ReadyOf(pods, rsKey)
  {
    forall p
      ensures p in ReadyKeys(list, rsKey, |list|) <==> p in ReadyOf(pods, rsKey)
    {
      ReadyKeysHas(list, rsKey, |list|, p);
      if p in ReadyOf(pods, rsKey) {
        assert pods[p] in list;
      }
    }
  }

  // What the environment answers to one launch: an error, or the status the pod is next listed with.
  datatype LaunchOutcome = LaunchFails(status: PodStatus) | Launched(status: PodStatus)

  // The status stored after a launch; a failed one shows as failed, whatever else it has left behind.
  function StatusAfter(outcome: LaunchOutcome): PodStatus {
    match outcome
    case LaunchFails(status) => status.(phase := Failed)
    case Launched(status) => status
  }

  // The pods that the controllers see (PodManager), kept by the server under their keys.
  class PodManager {
    var pods: map<Key, Pod>

    constructor ()
      ensures pods == map[]
    {
      pods := map[];
    }

    // A pod that could not be launched stays stored as failed.
    method LaunchPod(pod: Pod, outcome: LaunchOutcome) returns (ok: bool)
      modifies this
      ensures ok == outcome.Launched?
      ensures pods == old(pods)[pod.key := pod.(status := StatusAfter(outcome))]
    {
      ok := outcome.Launched?;
      pods := pods[pod.key := pod.(status := StatusAfter(outcome))];
    }

    method DeletePod(k: Key, deletes: bool) returns (ok: bool)
      modifies this
      ensures ok == deletes
      ensures pods == if ok then old(pods) - {k} else old(pods)
    {
      ok := deletes;
      if ok {
        pods := pods - {k};
      }
    }

    method ListPods(ns: string) returns (list: seq<Pod>)
      requires KeyedPods(pods)
      ensures IsPodListing(list, pods, ns)
    {
      list := Listed(pods, ns);
    }
  }

  // pods' is pods and new pods under the keys added, made from the ReplicaSet's template and owned by it.
  ghost predicate Launches(pods: map<Key, Pod>, pods': map<Key, Pod>, rs: ReplicaSet, added: set<Key>) {
    && (forall p :: p in pods' <==> p in pods || p in added)
    && (forall p :: p in pods ==> p !in added && pods'[p] == pods[p])
    && (forall p :: p in added ==> FromTemplate(pods'[p], p, rs))
  }

  ghost predicate FromTemplate(pod: Pod, p: Key, rs: ReplicaSet) {
    && pod.key == p && p.ns == rs.key.ns && rs.key.name + "-" <= p.name && pod.uid != ""
    && pod.owner == ReplicaSetOwner(rs.key.name) && pod.spec == rs.template.spec
    && pod.labels == rs.template.labels && pod.portAnnotation == rs.template.portAnnotation
  }

  // pods' is pods without some of the ReplicaSet's active pods.
  ghost predicate Deletes(pods: map<Key, Pod>, pods': map<Key, Pod>, rs: ReplicaSet, gone: set<Key>) {
    pods' == pods - gone && gone <= ActiveOf(pods, rs.key)
  }

  ghost predicate LaunchesCount(pods: map<Key, Pod>, pods': map<Key, Pod>, rs: ReplicaSet, n: int) {
    exists added :: |added| == n && Launches(pods, pods', rs, added)
  }

  ghost predicate DeletesCount(pods: map<Key, Pod>, pods': map<Key, Pod>, rs: ReplicaSet, n: int) {
    exists gone :: |gone| == n && Deletes(pods, pods', rs, gone)
  }

  ghost predicate HasFailed(pods: map<Key, Pod>, among: set<Key>) {
    exists p :: p in among && p in pods && pods[p].status.phase == Failed
  }

  // The loop stopped at a launch that failed; that pod stays stored as failed.
  ghost predicate LaunchesUntilFailure(pods: map<Key, Pod>, pods': map<Key, Pod>, rs: ReplicaSet, most: int) {
    exists added :: |added| <= most && Launches(pods, pods', rs, added) && HasFailed(pods', added)
  }

  // After i launches: all of them worked, or the last one failed.
  ghost predicate LaunchProgress(
    pods: map<Key, Pod>, pods': map<Key, Pod>, rs: ReplicaSet, added: set<Key>, i: int, ok: bool)
  {
    && |added| == i && Launches(pods, pods', rs, added)
    && (!ok ==> HasFailed(pods', added))
  }

  ghost predicate DeletesUntilFailure(pods: map<Key, Pod>, pods': map<Key, Pod>, rs: ReplicaSet, most: int) {
    exists gone :: |gone| < most && Deletes(pods, pods', rs, gone)
  }

  // A delete loop that runs past the first active pod indexes below zero, which stops the program.
  datatype Result = Completed | LaunchError | DeleteError | IndexPanic

  // What one reconcile of rs does to the pods.
  ghost predicate AdjustsPods(pods: map<Key, Pod>, pods': map<Key, Pod>, rs: ReplicaSet, result: Result) {
    var have, want := |ActiveOf(pods, rs.key)|, Wanted(rs);
    match result
    case Completed =>
      && 0 <= want
      && (have < want ==> LaunchesCount(pods, pods', rs, want - have))
      && (want <= have ==> DeletesCount(pods, pods', rs, have - want))
    case LaunchError => have < want && LaunchesUntilFailure(pods, pods', rs, want - have)
    case DeleteError => want < have && DeletesUntilFailure(pods, pods', rs, have - want)
    case IndexPanic => want < 0 && pods' == pods - ActiveOf(pods, rs.key)
  }

  // The status that a completed reconcile writes.  After launching, the pods are counted again; after
  // deleting, the count is the wanted one and the ready count is the one from before.
  ghost function NextStatus(pods: map<Key, Pod>, pods': map<Key, Pod>, rs: ReplicaSet): ReplicaSetStatus {
    var launched := |ActiveOf(pods, rs.key)| < Wanted(rs);
    var ready := |ReadyOf(if launched then pods' else pods, rs.key)|;
    ReplicaSetStatus(if launched then |ActiveOf(pods', rs.key)| else Wanted(rs), ready, ready)
  }

  // One reconcile of rs, as a relation between the states before and after.
  ghost predicate Reconciles(
    pods: map<Key, Pod>, pods': map<Key, Pod>, rss: map<Key, ReplicaSet>, rss': map<Key, ReplicaSet>,
    rs: ReplicaSet, result: Result)
  {
    && AdjustsPods(pods, pods', rs, result)
    && rss' == if result == Completed then rss[rs.key := rs.(status := NextStatus(pods, pods', rs))] else rss
  }

  // The random part of one reconcile: the suffixes of new pod names, the new UIDs and the answers of the pod manager.
  datatype Environment = Environment(
    suffixes: nat -> string, uids: nat -> string, launches: nat -> LaunchOutcome, deletes: nat -> bool)

  // The key of the n-th pod that one reconcile launches.
  function PodKey(rs: ReplicaSet, env: Environment, n: nat): Key {
    Key(rs.key.ns, rs.key.name + "-" + env.suffixes(n))
  }

  // The first n random suffixes give names that no pod has yet, and the UIDs are not empty.
  ghost predicate FreshNames(env: Environment, rs: ReplicaSet, pods: map<Key, Pod>, n: int) {
    && (forall i: nat :: i < n ==> PodKey(rs, env, i) !in pods)
    && (forall i: nat, j: nat :: i < j < n ==> PodKey(rs, env, i) != PodKey(rs, env, j))
    && (forall i: nat :: i < n ==> env.uids(i) != "")
  }

  // How many pods the ReplicaSet lacks.
  ghost function Missing(rs: ReplicaSet, pods: map<Key, Pod>): int {
    Wanted(rs) - |ActiveOf(pods, rs.key)|
  }

  class Controller {
    const store: Store
    const podManager: PodManager

    constructor (store: Store, podManager: PodManager)
      ensures this.store == store && this.podManager == podManager
    {
      this.store, this.podManager := store, podManager;
    }

    method Reconcile(rs: ReplicaSet, env: Environment) returns (result: Result)
      requires KeyedPods(podManager.pods)
      requires FreshNames(env, rs, podManager.pods, Missing(rs, podManager.pods))
      modifies store, podManager
      ensures KeyedPods(podManager.pods)
      ensures Reconciles(old(podManager.pods), podManager.pods, old(store.replicaSets), store.replicaSets, rs, result)
      ensures store.deployments == old(store.deployments)
      ensures result == IndexPanic ==> Wanted(rs) < 0
      ensures Wanted(rs) < 0 ==> result == IndexPanic || result == DeleteError
    {
      var status;
      result, status := AdjustPods(rs, env);
      if result == Completed {
        store.StoreReplicaSet(rs.(status := status));
      }
    }

    method AdjustPods(rs: ReplicaSet, env: Environment) returns (result: Result, status: ReplicaSetStatus)
      requires KeyedPods(podManager.pods)
      requires FreshNames(env, rs, podManager.pods, Missing(rs, podManager.pods))
      modifies podManager
      ensures KeyedPods(podManager.pods)
      ensures AdjustsPods(old(podManager.pods), podManager.pods, rs, result)
      ensures result == Completed ==> status == NextStatus(old(podManager.pods), podManager.pods, rs)
    {
      var pods := podManager.ListPods(rs.key.ns);
      var activePods, readyCount := CountActive(pods, rs);
      var desired := Wanted(rs);
      var currentCount := |activePods|;
      result, status := Completed, rs.status;

      if currentCount < desired {
        var ok := LaunchMissing(rs, desired - currentCount, env);
        if !ok {
          result := LaunchError;
          return;
        }
        pods := podManager.ListPods(rs.key.ns);
        activePods, readyCount := CountActive(pods, rs);
        currentCount := |activePods|;
      } else if currentCount > desired {
        result := DeleteSurplus(rs, activePods, currentCount - desired, env);
        if result != Completed {
          return;
        }
        currentCount := desired;
      } else {
        assert Deletes(podManager.pods, podManager.pods, rs, {}) by {
          assert podManager.pods == podManager.pods - {};
        }
      }
      status := ReplicaSetStatus(currentCount, readyCount, readyCount);
    }

    // The listed pods that the ReplicaSet owns and that have not ended, and how many of them are ready.
    method CountActive(pods: seq<Pod>, rs: ReplicaSet) returns (activePods: seq<Pod>, readyCount: int)
      requires KeyedPods(podManager.pods) && IsPodListing(pods, podManager.pods, rs.key.ns)
      ensures forall i :: 0 <= i < |activePods| ==> activePods[i].key in ActiveOf(podManager.pods, rs.key)
      ensures forall i, j :: 0 <= i < j < |activePods| ==> activePods[i].key != activePods[j].key
      ensures |activePods| == |ActiveOf(podManager.pods, rs.key)|
      ensures readyCount == |ReadyOf(podManager.pods, rs.key)|
    {
      activePods, readyCount := [], 0;
      for n := 0 to |pods|
        invariant activePods == Actives(pods, rs.key, n)
        invariant readyCount == |ReadyKeys(pods, rs.key, n)|
      {
        if OwnedActive(pods[n], rs.key) {
          activePods := activePods + [pods[n]];
          if pods[n].Ready() {
            ReadyKeysHas(pods, rs.key, n, pods[n].key);
            readyCount := readyCount + 1;
          }
        }
      }
      ActivesListed(podManager.pods, pods, rs.key);
      ReadyListed(podManager.pods, pods, rs.key);
    }

    method LaunchMissing(rs: ReplicaSet, diff: nat, env: Environment) returns (ok: bool)
      requires KeyedPods(podManager.pods) && FreshNames(env, rs, podManager.pods, diff)
      modifies podManager
      ensures KeyedPods(podManager.pods)
      ensures ok ==> LaunchesCount(old(podManager.pods), podManager.pods, rs, diff)
      ensures !ok ==> LaunchesUntilFailure(old(podManager.pods), podManager.pods, rs, diff)
    {
      ghost var before, added: set<Key> := podManager.pods, {};
      ok := true;
      var i := 0;
      while i < diff && ok
        invariant 0 <= i <= diff
        invariant KeyedPods(podManager.pods)
        invariant LaunchProgress(before, podManager.pods, rs, added, i, ok)
        invariant ok ==> forall j: nat :: i <= j < diff ==> PodKey(rs, env, j) !in podManager.pods
      {
        ok := LaunchOne(rs, i, env, before, added);
        added := added + {PodKey(rs, env, i)};
        i := i + 1;
      }
    }

    method LaunchOne(rs: ReplicaSet, i: nat, env: Environment, ghost before: map<Key, Pod>, ghost added: set<Key>)
      returns (ok: bool)
      requires KeyedPods(podManager.pods) && PodKey(rs, env, i) !in podManager.pods && env.uids(i) != ""
      requires LaunchProgress(before, podManager.pods, rs, added, i, true)
      modifies podManager
      ensures KeyedPods(podManager.pods)
      ensures forall p :: p in podManager.pods ==> p in old(podManager.pods) || p == PodKey(rs, env, i)
      ensures LaunchProgress(before, podManager.pods, rs, added + {PodKey(rs, env, i)}, i + 1, ok)
    {
      var newPod := Pod(PodKey(rs, env, i), env.uids(i), rs.template.labels, ReplicaSetOwner(rs.key.name),
                        rs.template.portAnnotation, rs.template.spec, PodStatus(NoPhase, [], 0));
      ok := podManager.LaunchPod(newPod, env.launches(i));
      LaunchesOneMore(before, old(podManager.pods), rs, added, i, podManager.pods[newPod.key], ok);
    }

    // Deletes from the end of the list of active pods.
    method DeleteSurplus(rs: ReplicaSet, activePods: seq<Pod>, diff: nat, env: Environment) returns (result: Result)
      requires KeyedPods(podManager.pods)
      requires forall i :: 0 <= i < |activePods| ==> activePods[i].key in ActiveOf(podManager.pods, rs.key)
      requires forall i, j :: 0 <= i < j < |activePods| ==> activePods[i].key != activePods[j].key
      requires |activePods| == |ActiveOf(podManager.pods, rs.key)|
      modifies podManager
      ensures KeyedPods(podManager.pods)
      ensures result == Completed ==>
                diff <= |activePods| && DeletesCount(old(podManager.pods), podManager.pods, rs, diff)
      ensures result == DeleteError ==> DeletesUntilFailure(old(podManager.pods), podManager.pods, rs, diff)
      ensures result == IndexPanic ==>
                && |activePods| < diff
                && podManager.pods == old(podManager.pods) - ActiveOf(old(podManager.pods), rs.key)
      ensures result != LaunchError
    {
      ghost var before, gone: set<Key> := podManager.pods, {};
      assert before - {} == before;
      for n := 0 to diff
        invariant n <= |activePods|
        invariant KeyedPods(podManager.pods)
        invariant Deletes(before, podManager.pods, rs, gone) && |gone| == n
        invariant forall i :: 0 <= i < |activePods| - n ==> activePods[i].key !in gone
      {
        if |activePods| - 1 - n < 0 {
          SubsetIffAsMany(gone, ActiveOf(before, rs.key));
          return IndexPanic;
        }
        var podToDelete := activePods[|activePods| - 1 - n];
        var ok := podManager.DeletePod(podToDelete.key, env.deletes(n));
        if !ok {
          return DeleteError;
        }
        assert before - gone - {podToDelete.key} == before - (gone + {podToDelete.key});
        gone := gone + {podToDelete.key};
      }
      return Completed;
    }
  }

  lemma LaunchesOneMore(
    before: map<Key, Pod>, pods: map<Key, Pod>, rs: ReplicaSet, added: set<Key>, i: int, pod: Pod,
    ok: bool)
    requires LaunchProgress(before, pods, rs, added, i, true) && pod.key !in pods
    requires FromTemplate(pod, pod.key, rs) && (!ok ==> pod.status.phase == Failed)
    ensures LaunchProgress(before, pods[pod.key := pod], rs, added + {pod.key}, i + 1, ok)
  {
    var pods' := pods[pod.key := pod];
    assert pod.key in added + {pod.key};
  }
}
