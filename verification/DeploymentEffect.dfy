// What one deployment reconcile does to the specs, for any number of old ReplicaSets in any listing order.
module DeploymentEffect {
  import opened ApiTypes
  import opened Totals
  import opened ControllerStore
  import opened DeploymentController

  lemma {:induction false} OldsDistinct(list: seq<ReplicaSet>, dep: Deployment, hash: string)
    requires DistinctKeys(list)
    ensures DistinctKeys(Olds(list, dep, hash))
  {
    if list != [] {
      var init, last := list[..|list| - 1], list[|list| - 1];
      OldsDistinct(init, dep, hash);
      forall i | 0 <= i < |Olds(init, dep, hash)|
        ensures Olds(init, dep, hash)[i].key != last.key
      {
        OldsAre(init, dep, hash, Olds(init, dep, hash)[i]);
      }
    }
  }

  // Storing the shares touches the listed old ReplicaSets and nothing but their replica counts.
  lemma {:induction false} SharesStored(
    rss: map<Key, ReplicaSet>, olds: seq<ReplicaSet>, allowance: int, n: nat, k: Key)
    requires n <= |olds| && DistinctKeys(olds)
    ensures (forall i :: 0 <= i < n ==> olds[i].key != k) ==>
              (k in StoreShares(rss, olds, allowance, n) <==> k in rss) &&
              (k in rss ==> StoreShares(rss, olds, allowance, n)[k] == rss[k])
    ensures forall i :: 0 <= i < n && olds[i].key == k ==>
              k in StoreShares(rss, olds, allowance, n) &&
              StoreShares(rss, olds, allowance, n)[k] == olds[i].(replicas := Some(Share(olds, allowance, i)))
  {
    if n > 0 {
      SharesStored(rss, olds, allowance, n - 1, k);
    }
  }

  // Specs before, and shares after, of the first n old ReplicaSets.
  ghost function SpecsBefore(olds: seq<ReplicaSet>, n: nat): map<Key, int>
    requires n <= |olds|
  {
    if n == 0 then map[] else SpecsBefore(olds, n - 1)[olds[n - 1].key := SpecOf(olds[n - 1])]
  }

  ghost function SpecsAfter(olds: seq<ReplicaSet>, allowance: int, n: nat): map<Key, int>
    requires n <= |olds|
  {
    if n == 0 then map[]
    else SpecsAfter(olds, allowance, n - 1)[olds[n - 1].key := Share(olds, allowance, n - 1)]
  }

  lemma {:induction false} SpecsHave(olds: seq<ReplicaSet>, allowance: int, n: nat, k: Key)
    requires n <= |olds| && DistinctKeys(olds)
    ensures k in SpecsBefore(olds, n) <==> exists i :: 0 <= i < n && olds[i].key == k
    ensures k in SpecsAfter(olds, allowance, n) <==> exists i :: 0 <= i < n && olds[i].key == k
    ensures forall i :: 0 <= i < n && olds[i].key == k ==>
              SpecsBefore(olds, n)[k] == SpecOf(olds[i]) &&
              SpecsAfter(olds, allowance, n)[k] == Share(olds, allowance, i)
  {
    if n > 0 {
      SpecsHave(olds, allowance, n - 1, k);
    }
  }

  // The greedy loop hands out the whole allowance, or everything there is to keep.
  lemma {:induction false} SharesTotal(olds: seq<ReplicaSet>, allowance: int, n: nat)
    requires n <= |olds| && DistinctKeys(olds)
    requires 0 <= allowance
    requires forall i :: 0 <= i < |olds| ==> 0 <= SpecOf(olds[i])
    ensures Total(SpecsAfter(olds, allowance, n)) == Min(Total(SpecsBefore(olds, n)), allowance)
    ensures Remaining(olds, allowance, n) == allowance - Total(SpecsAfter(olds, allowance, n))
  {
    if n > 0 {
      SharesTotal(olds, allowance, n - 1);
      SpecsHave(olds, allowance, n - 1, olds[n - 1].key);
      TotalUpdate(SpecsBefore(olds, n - 1), olds[n - 1].key, SpecOf(olds[n - 1]));
      TotalUpdate(SpecsAfter(olds, allowance, n - 1), olds[n - 1].key, Share(olds, allowance, n - 1));
    }
  }

  predicate OldAt(rss: map<Key, ReplicaSet>, dep: Deployment, hash: string, k: Key) {
    OwnedAt(rss, dep, k) && !HasHash(rss[k], hash)
  }

  ghost predicate NoOlds(rss: map<Key, ReplicaSet>, dep: Deployment, hash: string) {
    forall k :: k in rss ==> !OldAt(rss, dep, hash, k)
  }

  // The replica counts of the old ReplicaSets in the store.
  ghost function OldSpecs(rss: map<Key, ReplicaSet>, dep: Deployment, hash: string): map<Key, int> {
    map k | k in rss && OldAt(rss, dep, hash, k) :: SpecOf(rss[k])
  }

  // The name that the controller would give the template's ReplicaSet is taken by that ReplicaSet only,
  // and the deployment owns no second ReplicaSet with the same hash.
  ghost predicate NameReserved(rss: map<Key, ReplicaSet>, dep: Deployment, hash: string) {
    && (ReplicaSetKey(dep, hash) in rss ==>
          OwnedBy(rss[ReplicaSetKey(dep, hash)], dep) && HasHash(rss[ReplicaSetKey(dep, hash)], hash))
    && forall k :: OwnedAt(rss, dep, k) && HasHash(rss[k], hash) ==> k == ReplicaSetKey(dep, hash)
  }

  // The new ReplicaSet as a reconcile finds it, or as it creates it.
  ghost function CurrentNew(rss: map<Key, ReplicaSet>, dep: Deployment, hash: string): ReplicaSet {
    var nk := ReplicaSetKey(dep, hash);
    FoundOrCreated(if nk in rss then Some(rss[nk]) else None, dep, hash, NoOlds(rss, dep, hash))
  }

  ghost function NextNewSpec(rss: map<Key, ReplicaSet>, dep: Deployment, hash: string): int {
    NextSpec(SpecOf(CurrentNew(rss, dep, hash)), Desired(dep), NoOlds(rss, dep, hash))
  }

  // What the new ReplicaSet's reported ready replicas leave to the old ones.
  ghost function Allowance(rss: map<Key, ReplicaSet>, dep: Deployment, hash: string): int {
    Max(0, Desired(dep) - CurrentNew(rss, dep, hash).status.ready)
  }

  ghost predicate OnlyReplicasChanged(before: ReplicaSet, after: ReplicaSet) {
    after == before.(replicas := after.replicas)
  }

  ghost predicate Reads(rss: map<Key, ReplicaSet>, dep: Deployment, hash: string, list: seq<ReplicaSet>) {
    KeyedReplicaSets(rss) && IsListing(list, rss, dep.key.ns) && NameReserved(rss, dep, hash)
  }

  // The listing's split agrees with the store.
  lemma FoundNew(rss: map<Key, ReplicaSet>, dep: Deployment, hash: string, list: seq<ReplicaSet>)
    requires Reads(rss, dep, hash, list)
    ensures FindNew(list, dep, hash) ==
            if ReplicaSetKey(dep, hash) in rss then Some(rss[ReplicaSetKey(dep, hash)]) else None
  {
    var nk, found := ReplicaSetKey(dep, hash), FindNew(list, dep, hash);
    FindNewIs(list, dep, hash);
    if nk in rss {
      assert rss[nk] in list;
    }
    if found.Some? {
      assert OwnedAt(rss, dep, found.value.key);
    }
  }

  lemma FoundOld(rss: map<Key, ReplicaSet>, dep: Deployment, hash: string, list: seq<ReplicaSet>, k: Key)
    requires Reads(rss, dep, hash, list)
    ensures OldAt(rss, dep, hash, k) <==>
            exists i :: 0 <= i < |Olds(list, dep, hash)| && Olds(list, dep, hash)[i].key == k
    ensures forall i :: 0 <= i < |Olds(list, dep, hash)| && Olds(list, dep, hash)[i].key == k ==>
              k in rss && Olds(list, dep, hash)[i] == rss[k]
  {
    var olds := Olds(list, dep, hash);
    if OldAt(rss, dep, hash, k) {
      OldsAre(list, dep, hash, rss[k]);
      var i :| 0 <= i < |olds| && olds[i] == rss[k];
    }
    forall i | 0 <= i < |olds| && olds[i].key == k
      ensures OldAt(rss, dep, hash, k) && olds[i] == rss[k]
    {
      OldsAre(list, dep, hash, olds[i]);
    }
  }

  lemma FoundNoOlds(rss: map<Key, ReplicaSet>, dep: Deployment, hash: string, list: seq<ReplicaSet>)
    requires Reads(rss, dep, hash, list)
    ensures Olds(list, dep, hash) == [] <==> NoOlds(rss, dep, hash)
  {
    var olds := Olds(list, dep, hash);
    if olds != [] {
      FoundOld(rss, dep, hash, list, olds[0].key);
    }
    forall k | k in rss && OldAt(rss, dep, hash, k)
      ensures olds != []
    {
      FoundOld(rss, dep, hash, list, k);
    }
  }

  // The store after the creation and growth of the new ReplicaSet, before the old ones are capped.
  ghost function Grown(rss: map<Key, ReplicaSet>, dep: Deployment, hash: string): map<Key, ReplicaSet> {
    StoreNew(rss, CurrentNew(rss, dep, hash), Desired(dep), NoOlds(rss, dep, hash))
  }

  lemma ReconciledInTwoSteps(rss: map<Key, ReplicaSet>, dep: Deployment, hash: string, list: seq<ReplicaSet>)
    requires Reads(rss, dep, hash, list)
    ensures Reconciled(rss, dep, hash, list) ==
            StoreShares(
              Grown(rss, dep, hash), Olds(list, dep, hash), Allowance(rss, dep, hash), |Olds(list, dep, hash)|)
  {
    FoundNew(rss, dep, hash, list);
    FoundNoOlds(rss, dep, hash, list);
  }

  // One reconcile at one key: the new ReplicaSet moves as NextNewSpec says, an old one is capped and never
  // raised, and every other ReplicaSet stays as it was.
  ghost predicate MovesAt(
    rss: map<Key, ReplicaSet>, rss': map<Key, ReplicaSet>, dep: Deployment, hash: string, k: Key)
  {
    var nk := ReplicaSetKey(dep, hash);
    && (k in rss' <==> k in rss || k == nk)
    && (k == nk ==>
          && OnlyReplicasChanged(CurrentNew(rss, dep, hash), rss'[k])
          && SpecOf(rss'[k]) == NextNewSpec(rss, dep, hash)
          && (CurrentNew(rss, dep, hash).replicas.Some? ==> rss'[k].replicas.Some?))
    && (OldAt(rss, dep, hash, k) ==>
          && OnlyReplicasChanged(rss[k], rss'[k]) && rss'[k].replicas.Some? && SpecOf(rss'[k]) <= SpecOf(rss[k])
          && (0 <= SpecOf(rss[k]) ==> 0 <= SpecOf(rss'[k])))
    && (k in rss && k != nk && !OldAt(rss, dep, hash, k) ==> rss'[k] == rss[k])
  }

  lemma ReconciledAt(rss: map<Key, ReplicaSet>, dep: Deployment, hash: string, list: seq<ReplicaSet>, k: Key)
    requires Reads(rss, dep, hash, list)
    ensures MovesAt(rss, Reconciled(rss, dep, hash, list), dep, hash, k)
  {
    var olds := Olds(list, dep, hash);
    ReconciledInTwoSteps(rss, dep, hash, list);
    OldsDistinct(list, dep, hash);
    FoundOld(rss, dep, hash, list, k);
    SharesStored(Grown(rss, dep, hash), olds, Allowance(rss, dep, hash), |olds|, k);
    if OldAt(rss, dep, hash, k) {
      var i :| 0 <= i < |olds| && olds[i].key == k;
      RemainingNonNegative(olds, Allowance(rss, dep, hash), i);
    }
  }

  lemma RemainingNonNegative(olds: seq<ReplicaSet>, allowance: int, n: nat)
    requires n <= |olds| && 0 <= allowance
    ensures 0 <= Remaining(olds, allowance, n)
  {
  }

  lemma SpecsAreOldSpecsAt(rss: map<Key, ReplicaSet>, dep: Deployment, hash: string, list: seq<ReplicaSet>, k: Key)
    requires Reads(rss, dep, hash, list) && HASH_LABEL !in dep.selector
    ensures var olds, rss' := Olds(list, dep, hash), Reconciled(rss, dep, hash, list);
      var before, after := SpecsBefore(olds, |olds|), SpecsAfter(olds, Allowance(rss, dep, hash), |olds|);
      && (k in before <==> OldAt(rss, dep, hash, k))
      && (k in before ==> before[k] == SpecOf(rss[k]))
      && (k in after <==> OldAt(rss', dep, hash, k))
      && (k in after ==> after[k] == SpecOf(rss'[k]))
  {
    var olds, allowance := Olds(list, dep, hash), Allowance(rss, dep, hash);
    OldsDistinct(list, dep, hash);
    SpecsHave(olds, allowance, |olds|, k);
    FoundOld(rss, dep, hash, list, k);
    ReconciledAt(rss, dep, hash, list, k);
    ReconciledInTwoSteps(rss, dep, hash, list);
    SharesStored(Grown(rss, dep, hash), olds, allowance, |olds|, k);
  }

  lemma SpecsAreOldSpecs(rss: map<Key, ReplicaSet>, dep: Deployment, hash: string, list: seq<ReplicaSet>)
    requires Reads(rss, dep, hash, list) && HASH_LABEL !in dep.selector
    ensures SpecsBefore(Olds(list, dep, hash), |Olds(list, dep, hash)|) == OldSpecs(rss, dep, hash)
    ensures SpecsAfter(Olds(list, dep, hash), Allowance(rss, dep, hash), |Olds(list, dep, hash)|) ==
            OldSpecs(Reconciled(rss, dep, hash, list), dep, hash)
  {
    forall k {
      SpecsAreOldSpecsAt(rss, dep, hash, list, k);
    }
  }

  // However many old ReplicaSets there are and in whatever order they are read, their new total is
  // exactly what the new ReplicaSet's reported ready replicas leave of the desired count.
  lemma OldTotalCapped(rss: map<Key, ReplicaSet>, dep: Deployment, hash: string, list: seq<ReplicaSet>)
    requires Reads(rss, dep, hash, list) && HASH_LABEL !in dep.selector
    requires forall k :: OldAt(rss, dep, hash, k) ==> 0 <= SpecOf(rss[k])
    ensures Total(OldSpecs(Reconciled(rss, dep, hash, list), dep, hash)) ==
            Min(Total(OldSpecs(rss, dep, hash)), Allowance(rss, dep, hash))
  {
    var olds := Olds(list, dep, hash);
    OldsDistinct(list, dep, hash);
    SpecsAreOldSpecs(rss, dep, hash, list);
    forall i | 0 <= i < |olds|
      ensures 0 <= SpecOf(olds[i])
    {
      FoundOld(rss, dep, hash, list, olds[i].key);
    }
    SharesTotal(olds, Allowance(rss, dep, hash), |olds|);
  }

  lemma OldKeysKept(rss: map<Key, ReplicaSet>, dep: Deployment, hash: string, list: seq<ReplicaSet>)
    requires Reads(rss, dep, hash, list) && HASH_LABEL !in dep.selector
    ensures OldSpecs(Reconciled(rss, dep, hash, list), dep, hash).Keys == OldSpecs(rss, dep, hash).Keys
  {
    var olds := Olds(list, dep, hash);
    OldsDistinct(list, dep, hash);
    SpecsAreOldSpecs(rss, dep, hash, list);
    forall k
      ensures k in OldSpecs(Reconciled(rss, dep, hash, list), dep, hash) <==> k in OldSpecs(rss, dep, hash)
    {
      SpecsHave(olds, Allowance(rss, dep, hash), |olds|, k);
    }
  }

  // What a reconcile does to the whole store, without the order in which it read it.
  ghost predicate Moves(rss: map<Key, ReplicaSet>, rss': map<Key, ReplicaSet>, dep: Deployment, hash: string) {
    && (forall k :: MovesAt(rss, rss', dep, hash, k))
    && OldSpecs(rss', dep, hash).Keys == OldSpecs(rss, dep, hash).Keys
    && ((forall k :: OldAt(rss, dep, hash, k) ==> 0 <= SpecOf(rss[k])) ==>
          Total(OldSpecs(rss', dep, hash)) == Min(Total(OldSpecs(rss, dep, hash)), Allowance(rss, dep, hash)))
  }

  lemma ReconcileMoves(rss: map<Key, ReplicaSet>, rss': map<Key, ReplicaSet>, dep: Deployment, hash: string)
    requires KeyedReplicaSets(rss) && NameReserved(rss, dep, hash) && HASH_LABEL !in dep.selector
    requires ReconcilesTo(rss, rss', dep, hash)
    ensures Moves(rss, rss', dep, hash)
  {
    var list :| IsListing(list, rss, dep.key.ns) && rss' == Reconciled(rss, dep, hash, list);
    forall k {
      ReconciledAt(rss, dep, hash, list, k);
    }
    OldKeysKept(rss, dep, hash, list);
    if forall k :: OldAt(rss, dep, hash, k) ==> 0 <= SpecOf(rss[k]) {
      OldTotalCapped(rss, dep, hash, list);
    }
  }

  // In terms of counts -----------------------------------------------------------------------------------

  // The first reconcile of a deployment that owns nothing stores one ReplicaSet, which asks for what the deployment
  // asks for: one, if it does not say.
  lemma FirstReconcile(rss: map<Key, ReplicaSet>, rss': map<Key, ReplicaSet>, dep: Deployment, hash: string)
    requires ReconcilesTo(rss, rss', dep, hash)
    requires forall k :: k in rss && (dep.key.ns == "" || k.ns == dep.key.ns) ==>
               rss[k].owner != DeploymentOwner(dep.key.name)
    ensures var count := match dep.replicas case None => 1 case Some(n) => n;
      var k := Key(dep.key.ns, dep.key.name + "-" + hash);
      rss' == rss[k := ReplicaSet(k, map["pod-template-hash" := hash] + dep.selector, DeploymentOwner(dep.key.name),
                                  Some(count), dep.template, ReplicaSetStatus(0, 0, 0))]
  {
    var list :| IsListing(list, rss, dep.key.ns) && rss' == Reconciled(rss, dep, hash, list);
    forall rs | rs in list
      ensures !OwnedBy(rs, dep)
    {
      assert rs.key in rss;
    }
    FindNewIs(list, dep, hash);
    if Olds(list, dep, hash) != [] {
      OldsAre(list, dep, hash, Olds(list, dep, hash)[0]);
    }
  }

  // Any other reconcile sets the new ReplicaSet to what the deployment asks for when it is alone; beside old ones it
  // raises it by one, from 0 if it has to create it, as long as it asks for less.  A ReplicaSet that does not say how
  // many it asks for counts as 0, and one that need not move is left as it is.
  lemma LaterReconcile(rss: map<Key, ReplicaSet>, rss': map<Key, ReplicaSet>, dep: Deployment, hash: string)
    requires KeyedReplicaSets(rss) && NameReserved(rss, dep, hash) && HASH_LABEL !in dep.selector
    requires ReconcilesTo(rss, rss', dep, hash)
    requires !OwnsNoOther(rss, dep, hash) || Key(dep.key.ns, dep.key.name + "-" + hash) in rss
    ensures var k := Key(dep.key.ns, dep.key.name + "-" + hash);
      var desired := match dep.replicas case None => 1 case Some(n) => n;
      var was := if k !in rss then 0 else match rss[k].replicas case None => 0 case Some(n) => n;
      var next := if OwnsNoOther(rss, dep, hash) then desired else if was < desired then was + 1 else was;
      && k in rss'
      && (if k in rss && next == was then rss'[k] == rss[k]
          else if k in rss then rss'[k] == rss[k].(replicas := Some(next))
          else rss'[k] == ReplicaSet(k, map["pod-template-hash" := hash] + dep.selector,
                                     DeploymentOwner(dep.key.name), Some(next), dep.template,
                                     ReplicaSetStatus(0, 0, 0)))
  {
    var k := Key(dep.key.ns, dep.key.name + "-" + hash);
    var list :| IsListing(list, rss, dep.key.ns) && rss' == Reconciled(rss, dep, hash, list);
    var olds := Olds(list, dep, hash);
    ReconciledInTwoSteps(rss, dep, hash, list);
    AloneIffNoOlds(rss, dep, hash);
    OldsDistinct(list, dep, hash);
    FoundOld(rss, dep, hash, list, k);
    SharesStored(Grown(rss, dep, hash), olds, Allowance(rss, dep, hash), |olds|, k);
  }

  // The deployment owns no ReplicaSet but the one that its template's would be.
  ghost predicate OwnsNoOther(rss: map<Key, ReplicaSet>, dep: Deployment, hash: string) {
    forall j :: j in rss && (dep.key.ns == "" || j.ns == dep.key.ns)
                && j != Key(dep.key.ns, dep.key.name + "-" + hash) ==>
      rss[j].owner != DeploymentOwner(dep.key.name)
  }

  lemma AloneIffNoOlds(rss: map<Key, ReplicaSet>, dep: Deployment, hash: string)
    requires NameReserved(rss, dep, hash)
    ensures NoOlds(rss, dep, hash) <==> OwnsNoOther(rss, dep, hash)
  {
    if NoOlds(rss, dep, hash) {
      forall j | j in rss && (dep.key.ns == "" || j.ns == dep.key.ns)
                 && j != Key(dep.key.ns, dep.key.name + "-" + hash)
        ensures rss[j].owner != DeploymentOwner(dep.key.name)
      {
        assert !OldAt(rss, dep, hash, j);
      }
    }
  }

  // With one old ReplicaSet, it keeps what the reported ready replicas of the new one leave of the desired count.
  lemma OldReconciled(
    rss: map<Key, ReplicaSet>, rss': map<Key, ReplicaSet>, dep: Deployment, hash: string, k: Key)
    requires KeyedReplicaSets(rss) && NameReserved(rss, dep, hash) && HASH_LABEL !in dep.selector
    requires ReconcilesTo(rss, rss', dep, hash) && Key(dep.key.ns, dep.key.name + "-" + hash) in rss
    requires OldAt(rss, dep, hash, k) && forall j :: j != k ==> !OldAt(rss, dep, hash, j)
    requires rss[k].replicas.Some? ==> rss[k].replicas.value >= 0
    ensures var desired := match dep.replicas case None => 1 case Some(n) => n;
      var was := match rss[k].replicas case None => 0 case Some(n) => n;
      var left := desired - rss[Key(dep.key.ns, dep.key.name + "-" + hash)].status.ready;
      k in rss' && rss'[k].replicas == Some(if left < 0 then 0 else if left < was then left else was)
  {
    ReconcileMoves(rss, rss', dep, hash);
    assert MovesAt(rss, rss', dep, hash, k);
    OneOldTotal(rss, dep, hash, k);
    assert k in OldSpecs(rss, dep, hash);
    OneTotal(OldSpecs(rss', dep, hash), k);
  }

  lemma OneOldTotal(rss: map<Key, ReplicaSet>, dep: Deployment, hash: string, k: Key)
    requires OldAt(rss, dep, hash, k) && forall j :: j != k ==> !OldAt(rss, dep, hash, j)
    ensures OldSpecs(rss, dep, hash) == map[k := SpecOf(rss[k])]
    ensures Total(OldSpecs(rss, dep, hash)) == SpecOf(rss[k])
  {
    OneTotal(OldSpecs(rss, dep, hash), k);
  }

  lemma OneTotal(m: map<Key, int>, k: Key)
    requires m.Keys == {k}
    ensures Total(m) == m[k]
  {
    TotalRemove(m, k);
    assert m - {k} == map[];
  }

  // The status adds the owned ReplicaSets up, for any number of them: with none it is 0 all over, and with one more
  // it is more by that one's replicas and ready replicas.
  lemma NothingReported(status: DeploymentStatus, desired: int, hash: string)
    requires Reports(status, map[], desired, hash)
    ensures status == DeploymentStatus(0, 0, 0, 0, if desired < 0 then 0 else desired)
  {
  }

  lemma OneMoreReported(
    status: DeploymentStatus, more: DeploymentStatus, owned: map<Key, ReplicaSet>, k: Key, desired: int, hash: string)
    requires k in owned && Reports(status, owned - {k}, desired, hash) && Reports(more, owned, desired, hash)
    ensures more.replicas == status.replicas + owned[k].status.replicas
    ensures more.ready == more.available == status.ready + owned[k].status.ready
    ensures more.unavailable == if desired < more.ready then 0 else desired - more.ready
    ensures (forall j :: j in owned && j != k ==> !HasHash(owned[j], hash)) ==>
              more.updated ==
                if "pod-template-hash" in owned[k].labels && owned[k].labels["pod-template-hash"] == hash
                then owned[k].status.replicas else 0
  {
    TotalRemove(ReplicaCounts(owned), k);
    TotalRemove(ReadyCounts(owned), k);
    assert ReplicaCounts(owned) - {k} == ReplicaCounts(owned - {k});
    assert ReadyCounts(owned) - {k} == ReadyCounts(owned - {k});
  }
}
