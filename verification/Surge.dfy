// The surge bound: however often the template is edited or rolled back, and whatever the pods do, no
// ReplicaSet of the deployment ever asks for more than the desired count, and together they never ask for
// more than twice as much.
module Surge {
  import opened ApiTypes
  import opened ControllerStore
  import opened Totals
  import opened DeploymentController
  import opened DeploymentEffect
  import opened ReplicaSetController
  import opened Rollout

  ghost function OwnedSpecs(s: State): map<Key, int> {
    map k | k in s.rss && OwnedAt(s.rss, s.dep, k) :: SpecOf(s.rss[k])
  }

  ghost predicate BoundedAt(rs: ReplicaSet, desired: int) {
    rs.replicas.Some? && 0 <= SpecOf(rs) <= desired && 0 <= rs.status.ready
  }

  ghost predicate AllBounded(s: State) {
    forall k :: OwnedAt(s.rss, s.dep, k) ==> BoundedAt(s.rss[k], Desired(s.dep))
  }

  ghost predicate Bounded(s: State, hashOf: PodSpec -> string) {
    && WellFormed(s, hashOf)
    && 0 <= Desired(s.dep) && AllBounded(s)
    && Total(OwnedSpecs(s)) <= 2 * Desired(s.dep)
  }

  // After a reconcile the specs are the capped old ones and the new one.
  lemma OwnedSpecsAfter(s: State, s': State, hash: string)
    requires NameReserved(s.rss, s.dep, hash) && HASH_LABEL !in s.dep.selector
    requires Moves(s.rss, s'.rss, s.dep, hash) && s'.dep == s.dep.(status := s'.dep.status)
    ensures var nk := ReplicaSetKey(s.dep, hash);
      && OwnedSpecs(s') == OldSpecs(s'.rss, s.dep, hash)[nk := NextNewSpec(s.rss, s.dep, hash)]
      && nk !in OldSpecs(s'.rss, s.dep, hash)
  {
    var nk := ReplicaSetKey(s.dep, hash);
    var specs := OldSpecs(s'.rss, s.dep, hash)[nk := NextNewSpec(s.rss, s.dep, hash)];
    forall k
      ensures k in OwnedSpecs(s') <==> k in specs
      ensures k in specs ==> OwnedSpecs(s')[k] == specs[k]
    {
      assert MovesAt(s.rss, s'.rss, s.dep, hash, k);
      OwnedAfter(s, s', hash, k);
    }
    assert MovesAt(s.rss, s'.rss, s.dep, hash, nk);
    OwnedAfter(s, s', hash, nk);
  }

  // The owned specs are the old ones and the new one.
  lemma OwnedSpecsSplit(s: State, hash: string)
    requires NameReserved(s.rss, s.dep, hash) && KeyedReplicaSets(s.rss)
    ensures var nk := ReplicaSetKey(s.dep, hash);
      Total(OwnedSpecs(s)) == Total(OldSpecs(s.rss, s.dep, hash)) + if nk in s.rss then SpecOf(s.rss[nk]) else 0
  {
    var nk, olds := ReplicaSetKey(s.dep, hash), OldSpecs(s.rss, s.dep, hash);
    assert nk !in olds;
    if nk in s.rss {
      assert OwnedSpecs(s) == olds[nk := SpecOf(s.rss[nk])];
      TotalUpdate(olds, nk, SpecOf(s.rss[nk]));
    } else {
      assert OwnedSpecs(s) == olds;
    }
  }

  // Afterwards the deployment owns what it owned, and the new ReplicaSet, which has the hash.
  lemma OwnedAfter(s: State, s': State, hash: string, k: Key)
    requires NameReserved(s.rss, s.dep, hash) && HASH_LABEL !in s.dep.selector
    requires MovesAt(s.rss, s'.rss, s.dep, hash, k) && s'.dep == s.dep.(status := s'.dep.status)
    ensures OwnedAt(s'.rss, s'.dep, k) <==> OwnedAt(s.rss, s.dep, k) || k == ReplicaSetKey(s.dep, hash)
    ensures k in s'.rss ==> (HasHash(s'.rss[k], hash) <==>
                               k == ReplicaSetKey(s.dep, hash) || (k in s.rss && HasHash(s.rss[k], hash)))
  {
  }

  lemma MovedAtBounded(s: State, s': State, hash: string, k: Key)
    requires NameReserved(s.rss, s.dep, hash) && MovesAt(s.rss, s'.rss, s.dep, hash, k)
    requires s'.dep == s.dep.(status := s'.dep.status) && OwnedAt(s'.rss, s'.dep, k)
    requires 0 <= Desired(s.dep) && (OwnedAt(s.rss, s.dep, k) ==> BoundedAt(s.rss[k], Desired(s.dep)))
    ensures BoundedAt(s'.rss[k], Desired(s.dep))
  {
  }

  lemma NextSpecBounded(s: State, hash: string)
    requires NameReserved(s.rss, s.dep, hash) && 0 <= Desired(s.dep) && AllBounded(s)
    ensures NextNewSpec(s.rss, s.dep, hash) <= Desired(s.dep)
    ensures 0 <= CurrentNew(s.rss, s.dep, hash).status.ready
    ensures forall k :: OldAt(s.rss, s.dep, hash, k) ==> 0 <= SpecOf(s.rss[k])
  {
  }

  lemma MovesBounded(s: State, s': State, hashOf: PodSpec -> string)
    requires Bounded(s, hashOf) && Moves(s.rss, s'.rss, s.dep, Hash(s, hashOf))
    requires s'.dep == s.dep.(status := s'.dep.status)
    ensures Total(OwnedSpecs(s')) <= 2 * Desired(s.dep) && AllBounded(s')
  {
    NamesReserved(s, hashOf);
    MovesBoundedBy(s, s', Hash(s, hashOf));
  }

  lemma MovesBoundedBy(s: State, s': State, hash: string)
    requires NameReserved(s.rss, s.dep, hash) && HASH_LABEL !in s.dep.selector
    requires 0 <= Desired(s.dep) && AllBounded(s)
    requires Moves(s.rss, s'.rss, s.dep, hash) && s'.dep == s.dep.(status := s'.dep.status)
    ensures Total(OwnedSpecs(s')) <= 2 * Desired(s.dep) && AllBounded(s')
  {
    NextSpecBounded(s, hash);
    OwnedSpecsAfter(s, s', hash);
    TotalUpdate(OldSpecs(s'.rss, s.dep, hash), ReplicaSetKey(s.dep, hash), NextNewSpec(s.rss, s.dep, hash));
    forall k | OwnedAt(s'.rss, s'.dep, k)
      ensures BoundedAt(s'.rss[k], Desired(s'.dep))
    {
      assert MovesAt(s.rss, s'.rss, s.dep, hash, k);
      MovedAtBounded(s, s', hash, k);
    }
  }

  lemma StatusesBounded(s: State, s': State, hashOf: PodSpec -> string)
    requires Bounded(s, hashOf) && OnlyStatusesChanged(s.rss, s'.rss) && s'.dep == s.dep && WellFormed(s', hashOf)
    ensures Bounded(s', hashOf)
  {
    StatusesKeepBounds(s, s');
  }

  lemma StatusesKeepBounds(s: State, s': State)
    requires AllBounded(s) && OnlyStatusesChanged(s.rss, s'.rss) && s'.dep == s.dep
    ensures AllBounded(s') && OwnedSpecs(s') == OwnedSpecs(s)
  {
    forall k | OwnedAt(s'.rss, s'.dep, k)
      ensures BoundedAt(s'.rss[k], Desired(s'.dep))
    {
      assert OwnedAt(s.rss, s.dep, k);
    }
  }

  lemma OthersTickBounded(s: State, s': State, hashOf: PodSpec -> string)
    requires Bounded(s, hashOf) && OthersTick(s, s', hashOf)
    ensures Bounded(s', hashOf)
  {
    forall k
      ensures OwnedAt(s'.rss, s'.dep, k) <==> OwnedAt(s.rss, s.dep, k)
      ensures OwnedAt(s'.rss, s'.dep, k) ==> s'.rss[k] == s.rss[k]
    {
      assert k in Owned(s.rss, s.dep) <==> k in Owned(s'.rss, s.dep);
    }
    assert OwnedSpecs(s') == OwnedSpecs(s);
  }

  lemma DeploymentTickBounded(s: State, s': State, hashOf: PodSpec -> string)
    requires Bounded(s, hashOf) && DeploymentTick(s, s', hashOf)
    ensures Bounded(s', hashOf)
  {
    DeploymentTickWellFormed(s, s', hashOf);
    DeploymentTickMoves(s, s', hashOf);
    MovesBounded(s, s', hashOf);
  }

  lemma ReplicaSetTickBounded(s: State, s': State, k: Key, result: Result, hashOf: PodSpec -> string)
    requires Bounded(s, hashOf) && ReplicaSetTick(s, s', k, result)
    ensures Bounded(s', hashOf)
  {
    ReplicaSetTickWellFormed(s, s', k, result, hashOf);
    ReplicaSetTickStatuses(s, s', k, result);
    StatusesBounded(s, s', hashOf);
  }

  lemma StepBounded(s: State, s': State, hashOf: PodSpec -> string)
    requires Bounded(s, hashOf) && Step(s, s', hashOf)
    ensures Bounded(s', hashOf) && Desired(s'.dep) == Desired(s.dep)
  {
    if DeploymentTick(s, s', hashOf) {
      DeploymentTickBounded(s, s', hashOf);
    } else if exists k, result :: ReplicaSetTick(s, s', k, result) {
      var k, result :| ReplicaSetTick(s, s', k, result);
      ReplicaSetTickBounded(s, s', k, result, hashOf);
    } else if OthersTick(s, s', hashOf) {
      OthersTickBounded(s, s', hashOf);
    } else {
      StepWellFormed(s, s', hashOf);
      SameOwnerBounded(s, s');
    }
  }

  lemma SameOwnedSpecs(s: State, s': State)
    requires s'.rss == s.rss && s'.dep.key == s.dep.key
    ensures OwnedSpecs(s') == OwnedSpecs(s)
  {
  }

  // Pods and the template do not count.
  lemma SameOwnerBounded(s: State, s': State)
    requires AllBounded(s) && s'.rss == s.rss
    requires s'.dep.key == s.dep.key && s'.dep.replicas == s.dep.replicas
    ensures AllBounded(s') && OwnedSpecs(s') == OwnedSpecs(s)
  {
    forall k | OwnedAt(s'.rss, s'.dep, k)
      ensures BoundedAt(s'.rss[k], Desired(s'.dep))
    {
      assert OwnedAt(s.rss, s.dep, k);
    }
  }

  // Starting without any ReplicaSet of its own, a deployment of fixed size stays within its surge bound
  // in every state of every run.
  lemma {:induction false} SurgeBound(trace: seq<State>, hashOf: PodSpec -> string, i: nat)
    requires Run(trace, hashOf) && i < |trace|
    requires WellFormed(trace[0], hashOf) && 0 <= Desired(trace[0].dep)
    requires Owned(trace[0].rss, trace[0].dep) == map[]
    ensures Desired(trace[i].dep) == Desired(trace[0].dep)
    ensures Bounded(trace[i], hashOf)
  {
    if i == 0 {
      assert forall k :: OwnedAt(trace[0].rss, trace[0].dep, k) ==> k in Owned(trace[0].rss, trace[0].dep);
      assert OwnedSpecs(trace[0]) == map[];
    } else {
      SurgeBound(trace, hashOf, i - 1);
      StepBounded(trace[i - 1], trace[i], hashOf);
    }
  }
}
