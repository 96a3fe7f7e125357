// One reconcile of a Deployment (controller/deployment.go): which ReplicaSet is the new one, how far the
// new one grows, and how the old ones share what the new one's ready replicas leave them.
module DeploymentController {
  import opened ApiTypes
  import opened Totals
  import opened ControllerStore

  const HASH_LABEL := "pod-template-hash"

  function Desired(dep: Deployment): int {
    ValueOr(dep.replicas, 1)
  }

  predicate OwnedBy(rs: ReplicaSet, dep: Deployment) {
    rs.owner == DeploymentOwner(dep.key.name)
  }

  predicate HasHash(rs: ReplicaSet, hash: string) {
    HASH_LABEL in rs.labels && rs.labels[HASH_LABEL] == hash
  }

  // The replica count that the deployment controller reads from an existing ReplicaSet.
  function SpecOf(rs: ReplicaSet): int {
    ValueOr(rs.replicas, 0)
  }

  function ReplicaSetKey(dep: Deployment, hash: string): Key {
    Key(dep.key.ns, dep.key.name + "-" + hash)
  }

  // The last ReplicaSet in the list that the deployment owns and that carries the template's hash.
  function FindNew(list: seq<ReplicaSet>, dep: Deployment, hash: string): Option<ReplicaSet> {
    if list == [] then None else
      var last := list[|list| - 1];
      if OwnedBy(last, dep) && HasHash(last, hash) then Some(last) else FindNew(list[..|list| - 1], dep, hash)
  }

  // The other ReplicaSets that the deployment owns, in list order.
  function Olds(list: seq<ReplicaSet>, dep: Deployment, hash: string): seq<ReplicaSet> {
    if list == [] then [] else
      var last := list[|list| - 1];
      Olds(list[..|list| - 1], dep, hash) + if OwnedBy(last, dep) && !HasHash(last, hash) then [last] else []
  }

  lemma {:induction false} FindNewIs(list: seq<ReplicaSet>, dep: Deployment, hash: string)
    ensures FindNew(list, dep, hash).Some? ==>
              FindNew(list, dep, hash).value in list && OwnedBy(FindNew(list, dep, hash).value, dep) &&
              HasHash(FindNew(list, dep, hash).value, hash)
    ensures FindNew(list, dep, hash).None? ==> forall rs :: rs in list && OwnedBy(rs, dep) ==> !HasHash(rs, hash)
  {
    if list != [] {
      FindNewIs(list[..|list| - 1], dep, hash);
    }
  }

  lemma {:induction false} OldsAre(list: seq<ReplicaSet>, dep: Deployment, hash: string, rs: ReplicaSet)
    ensures rs in Olds(list, dep, hash) <==> rs in list && OwnedBy(rs, dep) && !HasHash(rs, hash)
  {
    if list != [] {
      OldsAre(list[..|list| - 1], dep, hash, rs);
    }
  }

  // The selector's labels are copied last and may overwrite the hash label.
  function NewReplicaSet(dep: Deployment, hash: string, replicas: int): ReplicaSet {
    ReplicaSet(ReplicaSetKey(dep, hash), map[HASH_LABEL := hash] + dep.selector, DeploymentOwner(dep.key.name),
               Some(replicas), dep.template, ReplicaSetStatus(0, 0, 0))
  }

  // What is left of the allowance for old replicas after the first n old ReplicaSets took their share.
  function Remaining(olds: seq<ReplicaSet>, allowance: int, n: nat): int
    requires n <= |olds|
    decreases n, 0
  {
    if n == 0 then allowance else
      Max(0, Remaining(olds, allowance, n - 1) - Share(olds, allowance, n - 1))
  }

  // The n-th old ReplicaSet keeps its replicas as far as the allowance goes.
  function Share(olds: seq<ReplicaSet>, allowance: int, n: nat): int
    requires n < |olds|
    decreases n, 1
  {
    Min(SpecOf(olds[n]), Remaining(olds, allowance, n))
  }

  function StoreShares(rss: map<Key, ReplicaSet>, olds: seq<ReplicaSet>, allowance: int, n: nat)
    : map<Key, ReplicaSet>
    requires n <= |olds|
  {
    if n == 0 then rss else
      var old' := olds[n - 1].(replicas := Some(Share(olds, allowance, n - 1)));
      StoreShares(rss, olds, allowance, n - 1)[old'.key := old']
  }

  // The new ReplicaSet as the reconcile found it, or as it creates it.
  function FoundOrCreated(found: Option<ReplicaSet>, dep: Deployment, hash: string, alone: bool): ReplicaSet {
    if found.Some? then found.value else NewReplicaSet(dep, hash, if alone then Desired(dep) else 0)
  }

  // The new ReplicaSet grows by one while old ones exist; alone, it is set to the desired count.
  function NextSpec(spec: int, desired: int, alone: bool): int {
    if alone then desired else if spec < desired then spec + 1 else spec
  }

  function StoreNew(rss: map<Key, ReplicaSet>, newRS: ReplicaSet, desired: int, alone: bool): map<Key, ReplicaSet> {
    var next := NextSpec(SpecOf(newRS), desired, alone);
    rss[newRS.key := if SpecOf(newRS) == next then newRS else newRS.(replicas := Some(next))]
  }

  // The ReplicaSets after one reconcile that read them in the order of list.
  function Reconciled(rss: map<Key, ReplicaSet>, dep: Deployment, hash: string, list: seq<ReplicaSet>)
    : map<Key, ReplicaSet>
  {
    var olds, desired := Olds(list, dep, hash), Desired(dep);
    var newRS := FoundOrCreated(FindNew(list, dep, hash), dep, hash, olds == []);
    StoreShares(StoreNew(rss, newRS, desired, olds == []), olds, Max(0, desired - newRS.status.ready), |olds|)
  }

  // rss' is what one reconcile makes of rss, for some order in which the store lists the namespace.
  ghost predicate ReconcilesTo(
    rss: map<Key, ReplicaSet>, rss': map<Key, ReplicaSet>, dep: Deployment, hash: string)
  {
    exists list :: IsListing(list, rss, dep.key.ns) && rss' == Reconciled(rss, dep, hash, list)
  }

  // The ReplicaSets that the deployment owns.
  predicate OwnedAt(rss: map<Key, ReplicaSet>, dep: Deployment, k: Key) {
    k in rss && InNamespace(k, dep.key.ns) && OwnedBy(rss[k], dep)
  }

  ghost function Owned(rss: map<Key, ReplicaSet>, dep: Deployment): map<Key, ReplicaSet> {
    map k | k in rss && OwnedAt(rss, dep, k) :: rss[k]
  }

  ghost function ReplicaCounts(owned: map<Key, ReplicaSet>): map<Key, int> {
    map k | k in owned :: owned[k].status.replicas
  }

  ghost function ReadyCounts(owned: map<Key, ReplicaSet>): map<Key, int> {
    map k | k in owned :: owned[k].status.ready
  }

  // The three sums of the status, over the owned ReplicaSets' own status fields.
  ghost predicate Tallies(
    replicas: int, ready: int, updated: int, owned: map<Key, ReplicaSet>, hash: string)
  {
    && replicas == Total(ReplicaCounts(owned))
    && ready == Total(ReadyCounts(owned))
    && UpdatedFrom(updated, owned, hash)
  }

  ghost predicate Reports(status: DeploymentStatus, owned: map<Key, ReplicaSet>, desired: int, hash: string) {
    && Tallies(status.replicas, status.ready, status.updated, owned, hash)
    && status.available == status.ready
    && status.unavailable == Max(0, desired - status.ready)
  }

  // updated is the replica count of a ReplicaSet with the current hash, or 0 when there is none.
  ghost predicate UpdatedFrom(updated: int, owned: map<Key, ReplicaSet>, hash: string) {
    if forall k :: k in owned ==> !HasHash(owned[k], hash) then updated == 0
    else exists k :: k in owned && HasHash(owned[k], hash) && owned[k].status.replicas == updated
  }

  // The owned ReplicaSets among the first n of a list.
  ghost function OwnedIn(list: seq<ReplicaSet>, dep: Deployment, n: nat): map<Key, ReplicaSet>
    requires n <= |list|
  {
    if n == 0 then map[] else
      var owned := OwnedIn(list, dep, n - 1);
      if OwnedBy(list[n - 1], dep) then owned[list[n - 1].key := list[n - 1]] else owned
  }

  lemma {:induction false} OwnedInHas(list: seq<ReplicaSet>, dep: Deployment, n: nat, k: Key)
    requires n <= |list|
    requires DistinctKeys(list)
    ensures k in OwnedIn(list, dep, n) <==> exists i :: 0 <= i < n && list[i].key == k && OwnedBy(list[i], dep)
    ensures k in OwnedIn(list, dep, n) ==> OwnedIn(list, dep, n)[k] in list[..n] && OwnedIn(list, dep, n)[k].key == k
  {
    if n > 0 {
      OwnedInHas(list, dep, n - 1, k);
      assert list[n - 1] in list[..n];
      assert forall rs :: rs in list[..n - 1] ==> rs in list[..n];
      if k in OwnedIn(list, dep, n) {
        if OwnedBy(list[n - 1], dep) && list[n - 1].key == k {
        } else {
          assert k in OwnedIn(list, dep, n - 1);
        }
      }
    }
  }

  // A listing shows exactly the owned ReplicaSets.
  lemma ListingShowsOwned(rss: map<Key, ReplicaSet>, dep: Deployment, list: seq<ReplicaSet>)
    requires KeyedReplicaSets(rss) && IsListing(list, rss, dep.key.ns)
    ensures OwnedIn(list, dep, |list|) == Owned(rss, dep)
  {
    var shown, owned := OwnedIn(list, dep, |list|), Owned(rss, dep);
    forall k
      ensures k in owned <==> k in shown
      ensures k in shown ==> shown[k] == rss[k]
    {
      ListingShows(rss, dep, list, k);
    }
  }

  lemma ListingShows(rss: map<Key, ReplicaSet>, dep: Deployment, list: seq<ReplicaSet>, k: Key)
    requires KeyedReplicaSets(rss) && IsListing(list, rss, dep.key.ns)
    ensures k in Owned(rss, dep) <==> k in OwnedIn(list, dep, |list|)
    ensures k in OwnedIn(list, dep, |list|) ==> OwnedIn(list, dep, |list|)[k] == rss[k]
  {
    var shown := OwnedIn(list, dep, |list|);
    OwnedInHas(list, dep, |list|, k);
    assert list[..|list|] == list;
    if k in Owned(rss, dep) {
      assert rss[k] in list;
    }
    if k in shown {
      var i :| 0 <= i < |list| && list[i] == shown[k];
    }
  }

  // Meeting one more owned ReplicaSet.
  lemma TallyOneMore(
    replicas: int, ready: int, updated: int, owned: map<Key, ReplicaSet>, hash: string, rs: ReplicaSet)
    requires Tallies(replicas, ready, updated, owned, hash)
    requires rs.key !in owned
    ensures Tallies(replicas + rs.status.replicas, ready + rs.status.ready,
                    if HasHash(rs, hash) then rs.status.replicas else updated, owned[rs.key := rs], hash)
  {
    var owned' := owned[rs.key := rs];
    assert ReadyCounts(owned') == ReadyCounts(owned)[rs.key := rs.status.ready];
    TotalUpdate(ReadyCounts(owned), rs.key, rs.status.ready);
    assert ReplicaCounts(owned') == ReplicaCounts(owned)[rs.key := rs.status.replicas];
    TotalUpdate(ReplicaCounts(owned), rs.key, rs.status.replicas);
    UpdatedOneMore(updated, owned, hash, rs);
  }

  lemma UpdatedOneMore(updated: int, owned: map<Key, ReplicaSet>, hash: string, rs: ReplicaSet)
    requires UpdatedFrom(updated, owned, hash)
    requires rs.key !in owned
    ensures UpdatedFrom(if HasHash(rs, hash) then rs.status.replicas else updated, owned[rs.key := rs], hash)
  {
    var owned' := owned[rs.key := rs];
    assert rs.key in owned' && owned'[rs.key] == rs;
    assert forall k :: k in owned ==> k in owned' && owned'[k] == owned[k];
  }

  class Controller {
    const store: Store
    const hashOf: PodSpec -> string

    constructor (store: Store, hashOf: PodSpec -> string)
      ensures this.store == store && this.hashOf == hashOf
    {
      this.store, this.hashOf := store, hashOf;
    }

    method Reconcile(dep: Deployment)
      requires KeyedReplicaSets(store.replicaSets)
      modifies store
      ensures KeyedReplicaSets(store.replicaSets)
      ensures ReconcilesTo(old(store.replicaSets), store.replicaSets, dep, hashOf(dep.template.spec))
      ensures exists status: DeploymentStatus ::
                && Reports(status, Owned(store.replicaSets, dep), Desired(dep), hashOf(dep.template.spec))
                && store.deployments == old(store.deployments)[dep.key := dep.(status := status)]
    {
      var hash := hashOf(dep.template.spec);
      MoveReplicas(dep, hash);
      var status := RefreshStatus(dep, hash);
      store.StoreDeployment(dep.(status := status));
    }

    // Creates and grows the new ReplicaSet and caps the old ones.
    method MoveReplicas(dep: Deployment, hash: string)
      requires KeyedReplicaSets(store.replicaSets)
      modifies store
      ensures KeyedReplicaSets(store.replicaSets)
      ensures ReconcilesTo(old(store.replicaSets), store.replicaSets, dep, hash)
      ensures store.deployments == old(store.deployments)
    {
      var desired := Desired(dep);
      var allRSs := store.ListReplicaSets(dep.key.ns);
      var newRS, oldRSs := Classify(allRSs, dep, hash);
      FindNewIs(allRSs, dep, hash);
      var current := CreateAndGrow(newRS, |oldRSs| == 0, dep, hash);
      if |oldRSs| > 0 {
        var maxOldReplicas := desired - current.status.ready;
        if maxOldReplicas < 0 {
          maxOldReplicas := 0;
        }
        ScaleDown(oldRSs, maxOldReplicas);
      }
      assert store.replicaSets == Reconciled(old(store.replicaSets), dep, hash, allRSs);
    }

    // Splits the listed ReplicaSets that the deployment owns into the new one and the old ones.
    method Classify(allRSs: seq<ReplicaSet>, dep: Deployment, hash: string)
      returns (newRS: Option<ReplicaSet>, oldRSs: seq<ReplicaSet>)
      ensures newRS == FindNew(allRSs, dep, hash) && oldRSs == Olds(allRSs, dep, hash)
    {
      newRS, oldRSs := None, [];
      for i := 0 to |allRSs|
        invariant newRS == FindNew(allRSs[..i], dep, hash)
        invariant oldRSs == Olds(allRSs[..i], dep, hash)
      {
        assert allRSs[..i + 1][..i] == allRSs[..i];
        var rs := allRSs[i];
        if OwnedBy(rs, dep) {
          if HasHash(rs, hash) {
            newRS := Some(rs);
          } else {
            oldRSs := oldRSs + [rs];
          }
        }
      }
      assert allRSs[..|allRSs|] == allRSs;
    }

    // Stores the new ReplicaSet if it is missing, and again if its replica count moves.
    method CreateAndGrow(newRS: Option<ReplicaSet>, alone: bool, dep: Deployment, hash: string)
      returns (current: ReplicaSet)
      requires KeyedReplicaSets(store.replicaSets)
      requires newRS.Some? ==> newRS.value.key in store.replicaSets && store.replicaSets[newRS.value.key] == newRS.value
      modifies store
      ensures current == FoundOrCreated(newRS, dep, hash, alone)
      ensures KeyedReplicaSets(store.replicaSets)
      ensures store.replicaSets == StoreNew(old(store.replicaSets), current, Desired(dep), alone)
      ensures store.deployments == old(store.deployments)
    {
      var desired := Desired(dep);
      if newRS == None {
        var initReplicas := if alone then desired else 0;
        current := NewReplicaSet(dep, hash, initReplicas);
        store.StoreReplicaSet(current);
      } else {
        current := newRS.value;
      }

      if !alone {
        var currentNewReplicas := SpecOf(current);
        if currentNewReplicas < desired {
          currentNewReplicas := currentNewReplicas + 1;
          store.StoreReplicaSet(current.(replicas := Some(currentNewReplicas)));
        }
      } else if SpecOf(current) != desired {
        store.StoreReplicaSet(current.(replicas := Some(desired)));
      }
      UpdatedTwice(old(store.replicaSets), current.key, current, store.replicaSets[current.key]);
    }

    // Caps the old ReplicaSets one after the other against what remains of the allowance.
    method ScaleDown(oldRSs: seq<ReplicaSet>, maxOldReplicas: int)
      requires KeyedReplicaSets(store.replicaSets)
      modifies store
      ensures KeyedReplicaSets(store.replicaSets)
      ensures store.replicaSets == StoreShares(old(store.replicaSets), oldRSs, maxOldReplicas, |oldRSs|)
      ensures store.deployments == old(store.deployments)
    {
      var remainingOld := maxOldReplicas;
      for i := 0 to |oldRSs|
        invariant remainingOld == Remaining(oldRSs, maxOldReplicas, i)
        invariant store.replicaSets == StoreShares(old(store.replicaSets), oldRSs, maxOldReplicas, i)
        invariant KeyedReplicaSets(store.replicaSets)
        invariant store.deployments == old(store.deployments)
      {
        var currentOldDesired := SpecOf(oldRSs[i]);
        if currentOldDesired > remainingOld {
          currentOldDesired := remainingOld;
        }
        store.StoreReplicaSet(oldRSs[i].(replicas := Some(currentOldDesired)));
        remainingOld := remainingOld - currentOldDesired;
        if remainingOld < 0 {
          remainingOld := 0;
        }
      }
    }

    // The status fields, summed over a second listing.
    method RefreshStatus(dep: Deployment, hash: string) returns (status: DeploymentStatus)
      requires KeyedReplicaSets(store.replicaSets)
      ensures Reports(status, Owned(store.replicaSets, dep), Desired(dep), hash)
    {
      var allRSs := store.ListReplicaSets(dep.key.ns);
      var totalReplicas, totalReady, updatedReplicas := 0, 0, 0;
      for i := 0 to |allRSs|
        invariant Tallies(totalReplicas, totalReady, updatedReplicas, OwnedIn(allRSs, dep, i), hash)
      {
        var rs := allRSs[i];
        if OwnedBy(rs, dep) {
          OwnedInHas(allRSs, dep, i, rs.key);
          TallyOneMore(totalReplicas, totalReady, updatedReplicas, OwnedIn(allRSs, dep, i), hash, rs);
          totalReplicas := totalReplicas + rs.status.replicas;
          totalReady := totalReady + rs.status.ready;
          if HasHash(rs, hash) {
            updatedReplicas := rs.status.replicas;
          }
        }
      }
      ListingShowsOwned(store.replicaSets, dep, allRSs);
      status := DeploymentStatus(
        totalReplicas, updatedReplicas, totalReady, totalReady, Max(0, Desired(dep) - totalReady));
    }
  }
}
