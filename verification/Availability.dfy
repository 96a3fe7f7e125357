// Availability of a rollout: while the template and the size stay fixed and pods do not fail, every
// interleaving of the two controllers keeps at least the desired number of the deployment's pods ready.
module Availability {
  import opened ApiTypes
  import opened Totals
  import opened ControllerStore
  import opened DeploymentController
  import opened DeploymentEffect
  import opened ReplicaSetController
  import opened ReplicaSetEffect
  import opened Rollout
  import opened Surge

  // An old ReplicaSet has at least the pods it asks for, and all of them are ready.
  ghost predicate OldServes(s: State, k: Key) {
    && k in s.rss && s.rss[k].replicas.Some?
    && 0 <= SpecOf(s.rss[k]) <= |ActiveOf(s.pods, k)|
    && ActiveOf(s.pods, k) <= ReadyOf(s.pods, k)
  }

  // The new ReplicaSet has no surplus, and reports no more ready pods than it has.
  ghost predicate NewServes(s: State, k: Key) {
    if k in s.rss then
      && s.rss[k].replicas.Some?
      && |ActiveOf(s.pods, k)| <= SpecOf(s.rss[k]) <= Desired(s.dep)
      && s.rss[k].status.ready <= |ReadyOf(s.pods, k)|
    else
      ActiveOf(s.pods, k) == {}
  }

  ghost predicate OldsServe(s: State, hash: string) {
    forall k :: OldAt(s.rss, s.dep, hash, k) ==> OldServes(s, k)
  }

  // The inductive invariant: what the old ReplicaSets ask for and what the new one has ready are at least the
  // desired number together, and the new one reports no more than that.
  ghost predicate Supplied(s: State, hash: string) {
    && 0 <= Desired(s.dep)
    && OldsServe(s, hash)
    && NewServes(s, ReplicaSetKey(s.dep, hash))
    && Desired(s.dep) <= Total(OldSpecs(s.rss, s.dep, hash)) + |ReadyOf(s.pods, ReplicaSetKey(s.dep, hash))|
  }

  ghost predicate Serving(s: State, hashOf: PodSpec -> string) {
    WellFormed(s, hashOf) && Supplied(s, Hash(s, hashOf))
  }

  // Deployment reconciles --------------------------------------------------------------------------------

  lemma MovedOldServes(s: State, s': State, hash: string, k: Key)
    requires s'.pods == s.pods && s'.dep == s.dep.(status := s'.dep.status)
    requires MovesAt(s.rss, s'.rss, s.dep, hash, k)
    requires OldAt(s.rss, s.dep, hash, k) && OldServes(s, k)
    ensures OldServes(s', k)
  {
  }

  lemma MovedNewServes(s: State, s': State, hash: string, k: Key)
    requires s'.pods == s.pods && s'.dep == s.dep.(status := s'.dep.status)
    requires MovesAt(s.rss, s'.rss, s.dep, hash, k) && k == ReplicaSetKey(s.dep, hash)
    requires 0 <= Desired(s.dep) && NewServes(s, k)
    ensures NewServes(s', k)
    ensures CurrentNew(s.rss, s.dep, hash).status.ready <= |ReadyOf(s.pods, k)|
  {
  }

  lemma MovesOldsServe(s: State, s': State, hash: string)
    requires s'.pods == s.pods && s'.dep == s.dep.(status := s'.dep.status)
    requires Moves(s.rss, s'.rss, s.dep, hash) && OldsServe(s, hash)
    ensures OldsServe(s', hash)
  {
    forall k | OldAt(s'.rss, s'.dep, hash, k)
      ensures OldServes(s', k)
    {
      assert k in OldSpecs(s'.rss, s.dep, hash);
      assert MovesAt(s.rss, s'.rss, s.dep, hash, k);
      MovedOldServes(s, s', hash, k);
    }
  }

  // What the old ones give up, the new one has ready.
  lemma MovesTotal(s: State, s': State, hash: string, ready: int)
    requires Moves(s.rss, s'.rss, s.dep, hash) && OldsServe(s, hash)
    requires CurrentNew(s.rss, s.dep, hash).status.ready <= ready
    requires Desired(s.dep) <= Total(OldSpecs(s.rss, s.dep, hash)) + ready
    ensures Desired(s.dep) <= Total(OldSpecs(s'.rss, s.dep, hash)) + ready
  {
  }

  lemma MovesSupplied(s: State, s': State, hash: string)
    requires Supplied(s, hash) && Moves(s.rss, s'.rss, s.dep, hash)
    requires s'.dep == s.dep.(status := s'.dep.status) && s'.pods == s.pods
    ensures Supplied(s', hash)
  {
    var nk := ReplicaSetKey(s.dep, hash);
    MovesOldsServe(s, s', hash);
    assert MovesAt(s.rss, s'.rss, s.dep, hash, nk);
    MovedNewServes(s, s', hash, nk);
    MovesTotal(s, s', hash, |ReadyOf(s.pods, nk)|);
    SameOldSpecs(s'.rss, s.dep, s'.dep, hash);
  }

  lemma SameOldSpecs(rss: map<Key, ReplicaSet>, dep: Deployment, dep': Deployment, hash: string)
    requires dep'.key == dep.key
    ensures OldSpecs(rss, dep', hash) == OldSpecs(rss, dep, hash)
  {
  }

  // ReplicaSet reconciles --------------------------------------------------------------------------------

  lemma OtherKeysKept(pods: map<Key, Pod>, pods': map<Key, Pod>, rs: ReplicaSet, result: Result, k: Key)
    requires AdjustsPods(pods, pods', rs, result) && KeyedPods(pods)
    requires rs.key.ns != "" && k.ns != "" && k != rs.key
    ensures ActiveOf(pods', k) == ActiveOf(pods, k) && ReadyOf(pods', k) == ReadyOf(pods, k)
  {
    forall p
      ensures p in ActiveOf(pods', k) <==> p in ActiveOf(pods, k)
      ensures p in ReadyOf(pods', k) <==> p in ReadyOf(pods, k)
    {
      TouchesOwnPodsOnly(pods, pods', rs, result, p);
    }
  }

  lemma DeletedServes(pods: map<Key, Pod>, pods': map<Key, Pod>, rs: ReplicaSet, gone: set<Key>)
    requires Deletes(pods, pods', rs, gone)
    requires ActiveOf(pods, rs.key) <= ReadyOf(pods, rs.key)
    ensures ActiveOf(pods', rs.key) <= ReadyOf(pods', rs.key)
    ensures |ActiveOf(pods', rs.key)| == |ActiveOf(pods, rs.key)| - |gone|
  {
    DeletedActive(pods, pods', rs, gone);
    DeletedExactly(pods, pods', rs, gone);
  }

  // A ReplicaSet that has what it asks for, all of it ready, still has it after any reconcile.
  lemma OldServed(pods: map<Key, Pod>, pods': map<Key, Pod>, rs: ReplicaSet, result: Result)
    requires AdjustsPods(pods, pods', rs, result)
    requires 0 <= Wanted(rs) <= |ActiveOf(pods, rs.key)| && ActiveOf(pods, rs.key) <= ReadyOf(pods, rs.key)
    ensures Wanted(rs) <= |ActiveOf(pods', rs.key)| && ActiveOf(pods', rs.key) <= ReadyOf(pods', rs.key)
  {
    var have, want := |ActiveOf(pods, rs.key)|, Wanted(rs);
    if result == Completed {
      var gone :| |gone| == have - want && Deletes(pods, pods', rs, gone);
      DeletedServes(pods, pods', rs, gone);
    } else {
      assert result == DeleteError;
      var gone :| |gone| < have - want && Deletes(pods, pods', rs, gone);
      DeletedServes(pods, pods', rs, gone);
    }
  }

  lemma LaunchedServes(pods: map<Key, Pod>, pods': map<Key, Pod>, rs: ReplicaSet, added: set<Key>)
    requires Launches(pods, pods', rs, added)
    ensures |ReadyOf(pods, rs.key)| <= |ReadyOf(pods', rs.key)|
    ensures |ActiveOf(pods', rs.key)| <= |ActiveOf(pods, rs.key)| + |added|
  {
    CountSubset(ReadyOf(pods, rs.key), ReadyOf(pods', rs.key));
    LaunchedAtMost(pods, pods', rs, added);
  }

  // A ReplicaSet without surplus gains no surplus and loses no ready pod, and reports what it has.
  lemma NewServed(pods: map<Key, Pod>, pods': map<Key, Pod>, rs: ReplicaSet, result: Result)
    requires AdjustsPods(pods, pods', rs, result)
    requires |ActiveOf(pods, rs.key)| <= Wanted(rs)
    ensures |ActiveOf(pods', rs.key)| <= Wanted(rs)
    ensures |ReadyOf(pods, rs.key)| <= |ReadyOf(pods', rs.key)|
    ensures result == Completed ==> NextStatus(pods, pods', rs).ready == |ReadyOf(pods', rs.key)|
  {
    var have, want := |ActiveOf(pods, rs.key)|, Wanted(rs);
    if result == Completed {
      if have < want {
        var added :| |added| == want - have && Launches(pods, pods', rs, added);
        LaunchedServes(pods, pods', rs, added);
      } else {
        var gone :| |gone| == 0 && Deletes(pods, pods', rs, gone);
        assert pods' == pods;
      }
    } else {
      assert result == LaunchError;
      var added :| |added| <= want - have && Launches(pods, pods', rs, added) && HasFailed(pods', added);
      LaunchedServes(pods, pods', rs, added);
    }
  }

  lemma ReplicaSetTickServesOld(s: State, s': State, k: Key, result: Result, j: Key)
    requires KeyedReplicaSets(s.rss) && KeyedPods(s.pods) && ReplicaSetTick(s, s', k, result)
    requires k.ns != "" && j.ns != "" && OldServes(s, j)
    ensures OldServes(s', j)
  {
    if j == k {
      OldServed(s.pods, s'.pods, s.rss[k], result);
    } else {
      OtherKeysKept(s.pods, s'.pods, s.rss[k], result, j);
    }
  }

  lemma ReplicaSetTickServesNew(s: State, s': State, k: Key, result: Result, j: Key)
    requires KeyedReplicaSets(s.rss) && KeyedPods(s.pods) && ReplicaSetTick(s, s', k, result)
    requires k.ns != "" && j.ns != "" && NewServes(s, j)
    ensures NewServes(s', j) && |ReadyOf(s.pods, j)| <= |ReadyOf(s'.pods, j)|
  {
    if j == k {
      NewServed(s.pods, s'.pods, s.rss[k], result);
    } else {
      OtherKeysKept(s.pods, s'.pods, s.rss[k], result, j);
    }
  }

  lemma ReplicaSetTickOldsServe(s: State, s': State, k: Key, result: Result, hashOf: PodSpec -> string)
    requires WellFormed(s, hashOf) && ReplicaSetTick(s, s', k, result) && OldsServe(s, Hash(s, hashOf))
    ensures OldsServe(s', Hash(s, hashOf))
    ensures OldSpecs(s'.rss, s'.dep, Hash(s, hashOf)) == OldSpecs(s.rss, s.dep, Hash(s, hashOf))
  {
    var hash := Hash(s, hashOf);
    ReplicaSetTickStatuses(s, s', k, result);
    StatusesKeepOldSpecs(s.rss, s'.rss, s.dep, hash);
    forall j | OldAt(s'.rss, s'.dep, hash, j)
      ensures OldServes(s', j)
    {
      assert OldAt(s.rss, s.dep, hash, j);
      ReplicaSetTickServesOld(s, s', k, result, j);
    }
  }

  lemma StatusesKeepOldSpecs(rss: map<Key, ReplicaSet>, rss': map<Key, ReplicaSet>, dep: Deployment, hash: string)
    requires OnlyStatusesChanged(rss, rss')
    ensures OldSpecs(rss', dep, hash) == OldSpecs(rss, dep, hash)
    ensures forall k :: OldAt(rss', dep, hash, k) <==> OldAt(rss, dep, hash, k)
  {
  }

  lemma ReplicaSetTickServing(s: State, s': State, k: Key, result: Result, hashOf: PodSpec -> string)
    requires Serving(s, hashOf) && ReplicaSetTick(s, s', k, result)
    ensures Supplied(s', Hash(s, hashOf))
  {
    ReplicaSetTickOldsServe(s, s', k, result, hashOf);
    ReplicaSetTickServesNew(s, s', k, result, NewKey(s, hashOf));
  }

  // Pods and others --------------------------------------------------------------------------------------

  lemma PodImprovesKeys(s: State, s': State, p: Key, k: Key)
    requires PodImproves(s, s', p)
    ensures ActiveOf(s'.pods, k) == ActiveOf(s.pods, k) && ReadyOf(s.pods, k) <= ReadyOf(s'.pods, k)
  {
  }

  lemma PodImprovesSupplied(s: State, s': State, p: Key, hash: string)
    requires Supplied(s, hash) && PodImproves(s, s', p)
    ensures Supplied(s', hash)
  {
    var nk := ReplicaSetKey(s.dep, hash);
    forall k | OldAt(s'.rss, s'.dep, hash, k)
      ensures OldServes(s', k)
    {
      PodImprovesKeys(s, s', p, k);
      assert OldAt(s.rss, s.dep, hash, k);
    }
    PodImprovesKeys(s, s', p, nk);
    CountSubset(ReadyOf(s.pods, nk), ReadyOf(s'.pods, nk));
  }

  lemma SameOwned(rss: map<Key, ReplicaSet>, rss': map<Key, ReplicaSet>, dep: Deployment, hash: string)
    requires Owned(rss', dep) == Owned(rss, dep)
    ensures forall k :: OwnedAt(rss', dep, k) <==> OwnedAt(rss, dep, k)
    ensures forall k :: OwnedAt(rss', dep, k) ==> k in rss && rss'[k] == rss[k]
    ensures OldSpecs(rss', dep, hash) == OldSpecs(rss, dep, hash)
  {
    forall k
      ensures OwnedAt(rss', dep, k) <==> OwnedAt(rss, dep, k)
      ensures OwnedAt(rss', dep, k) ==> k in rss && rss'[k] == rss[k]
    {
      assert k in Owned(rss, dep) <==> k in Owned(rss', dep);
    }
  }

  lemma OthersOldServes(s: State, s': State, k: Key)
    requires OldServes(s, k) && k in s'.rss && s'.rss[k] == s.rss[k]
    requires ActiveOf(s'.pods, k) == ActiveOf(s.pods, k) && ReadyOf(s'.pods, k) == ReadyOf(s.pods, k)
    ensures OldServes(s', k)
  {
  }

  lemma OthersSupplied(s: State, s': State, hash: string)
    requires Supplied(s, hash) && s'.dep == s.dep && Owned(s'.rss, s.dep) == Owned(s.rss, s.dep)
    requires forall k :: OwnedAt(s.rss, s.dep, k) || k == ReplicaSetKey(s.dep, hash) ==>
               ActiveOf(s'.pods, k) == ActiveOf(s.pods, k) && ReadyOf(s'.pods, k) == ReadyOf(s.pods, k)
    requires ReplicaSetKey(s.dep, hash) in s.rss ==> OwnedAt(s.rss, s.dep, ReplicaSetKey(s.dep, hash))
    requires ReplicaSetKey(s.dep, hash) in s'.rss ==> OwnedAt(s'.rss, s.dep, ReplicaSetKey(s.dep, hash))
    ensures Supplied(s', hash)
  {
    var nk := ReplicaSetKey(s.dep, hash);
    SameOwned(s.rss, s'.rss, s.dep, hash);
    forall k | OldAt(s'.rss, s'.dep, hash, k)
      ensures OldServes(s', k)
    {
      assert OldAt(s.rss, s.dep, hash, k);
      OthersOldServes(s, s', k);
    }
  }

  // The theorem ------------------------------------------------------------------------------------------

  lemma StepServing(s: State, s': State, hashOf: PodSpec -> string)
    requires Serving(s, hashOf) && RolloutStep(s, s', hashOf)
    ensures Serving(s', hashOf) && Desired(s'.dep) == Desired(s.dep)
  {
    if DeploymentTick(s, s', hashOf) {
      DeploymentTickWellFormed(s, s', hashOf);
      DeploymentTickMoves(s, s', hashOf);
      MovesSupplied(s, s', Hash(s, hashOf));
    } else if exists k, result :: ReplicaSetTick(s, s', k, result) {
      var k, result :| ReplicaSetTick(s, s', k, result);
      ReplicaSetTickWellFormed(s, s', k, result, hashOf);
      ReplicaSetTickServing(s, s', k, result, hashOf);
    } else if exists p :: PodImproves(s, s', p) {
      var p :| PodImproves(s, s', p);
      PodImprovesSupplied(s, s', p, Hash(s, hashOf));
    } else {
      OthersTickServing(s, s', hashOf);
    }
  }

  lemma OthersTickServing(s: State, s': State, hashOf: PodSpec -> string)
    requires Serving(s, hashOf) && OthersTick(s, s', hashOf) && OwnPodsKept(s, s', hashOf)
    ensures Serving(s', hashOf)
  {
    NamesReserved(s, hashOf);
    NamesReserved(s', hashOf);
    OthersSupplied(s, s', Hash(s, hashOf));
  }

  // The deployment's ready pods: active, ready, and owned by a ReplicaSet that the deployment owns.
  ghost function OwnerKey(s: State, pod: Pod): Key {
    Key(s.dep.key.ns, if pod.owner.ReplicaSetOwner? then pod.owner.name else "")
  }

  ghost predicate ServesDeployment(s: State, p: Key) {
    && p in s.pods && s.pods[p].owner.ReplicaSetOwner? && s.pods[p].key.ns == s.dep.key.ns
    && s.pods[p].Active() && s.pods[p].Ready()
    && OwnedAt(s.rss, s.dep, OwnerKey(s, s.pods[p]))
  }

  ghost function ReadyPods(s: State): map<Key, Key> {
    map p | p in s.pods && ServesDeployment(s, p) :: OwnerKey(s, s.pods[p])
  }

  ghost function OwnedKeys(s: State): set<Key> {
    set k | k in s.rss && OwnedAt(s.rss, s.dep, k)
  }

  lemma ReadyPart(s: State, hashOf: PodSpec -> string, k: Key)
    requires WellFormed(s, hashOf) && OwnedAt(s.rss, s.dep, k)
    ensures Part(ReadyPods(s), k) == ReadyOf(s.pods, k)
  {
    assert k.ns == s.dep.key.ns;
  }

  // What a ReplicaSet is counted for.
  ghost function Promised(s: State, hash: string): map<Key, int> {
    var nk, olds := ReplicaSetKey(s.dep, hash), OldSpecs(s.rss, s.dep, hash);
    if nk in s.rss then olds[nk := |ReadyOf(s.pods, nk)|] else olds
  }

  lemma PromiseKept(s: State, hashOf: PodSpec -> string, k: Key)
    requires Serving(s, hashOf) && k in Promised(s, Hash(s, hashOf))
    ensures k in OwnedKeys(s) && Promised(s, Hash(s, hashOf))[k] <= |Part(ReadyPods(s), k)|
  {
    NamesReserved(s, hashOf);
    ReadyPart(s, hashOf, k);
    if k != NewKey(s, hashOf) {
      assert OldServes(s, k);
      CountSubset(ActiveOf(s.pods, k), ReadyOf(s.pods, k));
    }
  }

  lemma AllPromised(s: State, hashOf: PodSpec -> string)
    requires Serving(s, hashOf)
    ensures Desired(s.dep) <= Total(Promised(s, Hash(s, hashOf)))
    ensures Promised(s, Hash(s, hashOf)).Keys == OwnedKeys(s)
  {
    NamesReserved(s, hashOf);
    PromisedTotal(s, Hash(s, hashOf));
    PromisedKeys(s, Hash(s, hashOf));
  }

  lemma PromisedTotal(s: State, hash: string)
    requires Supplied(s, hash) && NameReserved(s.rss, s.dep, hash)
    ensures Desired(s.dep) <= Total(Promised(s, hash))
  {
    var nk, olds := ReplicaSetKey(s.dep, hash), OldSpecs(s.rss, s.dep, hash);
    var ready := |ReadyOf(s.pods, nk)|;
    ReadyAtMostSpec(s, nk);
    assert nk !in olds;
    TotalUpdate(olds, nk, ready);
  }

  lemma PromisedKeys(s: State, hash: string)
    requires NameReserved(s.rss, s.dep, hash)
    ensures Promised(s, hash).Keys == OwnedKeys(s)
  {
  }

  // In a serving state at least the desired number of the deployment's pods are ready.
  lemma ServingIsAvailable(s: State, hashOf: PodSpec -> string)
    requires Serving(s, hashOf)
    ensures Desired(s.dep) <= |ReadyPods(s)|
  {
    AllPromised(s, hashOf);
    CountByOwner(ReadyPods(s), OwnedKeys(s));
    forall k | k in Promised(s, Hash(s, hashOf))
      ensures Promised(s, Hash(s, hashOf))[k] <= Sizes(ReadyPods(s), OwnedKeys(s))[k]
    {
      PromiseKept(s, hashOf, k);
    }
    TotalMonotone(Promised(s, Hash(s, hashOf)), Sizes(ReadyPods(s), OwnedKeys(s)));
  }

  // A rollout is about to start: there is no new ReplicaSet, nobody owns pods in its name, and the old
  // ReplicaSets have, ready, the pods they ask for, which are at least the desired number together.
  ghost predicate RolloutStarts(s: State, hashOf: PodSpec -> string) {
    && WellFormed(s, hashOf) && 0 <= Desired(s.dep)
    && NewKey(s, hashOf) !in s.rss && ActiveOf(s.pods, NewKey(s, hashOf)) == {}
    && OldsServe(s, Hash(s, hashOf))
    && Desired(s.dep) <= Total(OldSpecs(s.rss, s.dep, Hash(s, hashOf)))
  }

  lemma StartServes(s: State, hashOf: PodSpec -> string)
    requires RolloutStarts(s, hashOf)
    ensures Serving(s, hashOf)
  {
  }

  // Template edits ---------------------------------------------------------------------------------------

  // The new ReplicaSet has, ready, the pods it asks for; the one the edit makes the new one either does not exist
  // or, in a rollback, has no more than it asks for and reports no more than it has.
  ghost predicate EditReady(s: State, s': State, hashOf: PodSpec -> string) {
    var nk, target := NewKey(s, hashOf), NewKey(s', hashOf);
    target == nk ||
    ((nk in s.rss ==> OldServes(s, nk)) && NewServes(s, target))
  }

  lemma EditKeepsOlds(s: State, s': State, hashOf: PodSpec -> string)
    requires Serving(s, hashOf) && TemplateEdit(s, s') && EditReady(s, s', hashOf)
    requires NewKey(s', hashOf) != NewKey(s, hashOf)
    ensures OldsServe(s', Hash(s', hashOf))
  {
    NamesReserved(s, hashOf);
    forall k | OldAt(s'.rss, s'.dep, Hash(s', hashOf), k)
      ensures OldServes(s', k)
    {
      assert OwnedAt(s.rss, s.dep, k);
      if k != NewKey(s, hashOf) {
        assert OldAt(s.rss, s.dep, Hash(s, hashOf), k);
      }
      assert OldServes(s, k);
    }
  }

  // Counting the specs of all ReplicaSets, it does not matter which is the new one.
  lemma EditKeepsTotal(s: State, s': State, hashOf: PodSpec -> string)
    requires Serving(s, hashOf) && TemplateEdit(s, s') && EditReady(s, s', hashOf) && WellFormed(s', hashOf)
    requires NewKey(s', hashOf) != NewKey(s, hashOf)
    ensures Desired(s.dep) <=
            Total(OldSpecs(s'.rss, s'.dep, Hash(s', hashOf))) + |ReadyOf(s'.pods, NewKey(s', hashOf))|
  {
    NamesReserved(s, hashOf);
    NamesReserved(s', hashOf);
    OwnedSpecsSplit(s, Hash(s, hashOf));
    OwnedSpecsSplit(s', Hash(s', hashOf));
    SameOwnedSpecs(s, s');
    ReadyAtMostSpec(s, NewKey(s, hashOf));
    if NewKey(s', hashOf) in s.rss {
      TargetIsOld(s, s', hashOf);
      ReadyAtLeastSpec(s, NewKey(s', hashOf));
    }
  }

  lemma ReadyAtMostSpec(s: State, k: Key)
    requires NewServes(s, k)
    ensures |ReadyOf(s.pods, k)| <= if k in s.rss then SpecOf(s.rss[k]) else 0
  {
    CountSubset(ReadyOf(s.pods, k), ActiveOf(s.pods, k));
  }

  lemma ReadyAtLeastSpec(s: State, k: Key)
    requires OldServes(s, k)
    ensures SpecOf(s.rss[k]) <= |ReadyOf(s.pods, k)|
  {
    CountSubset(ActiveOf(s.pods, k), ReadyOf(s.pods, k));
  }

  // A rollback's target is an old ReplicaSet.
  lemma TargetIsOld(s: State, s': State, hashOf: PodSpec -> string)
    requires WellFormed(s, hashOf) && TemplateEdit(s, s')
    requires NewKey(s', hashOf) in s.rss && NewKey(s', hashOf) != NewKey(s, hashOf)
    ensures OldAt(s.rss, s.dep, Hash(s, hashOf), NewKey(s', hashOf))
  {
    NamesReserved(s, hashOf);
    assert NewKey(s', hashOf) == ReplicaSetKey(s.dep, hashOf(s'.dep.template.spec));
  }

  lemma EditServing(s: State, s': State, hashOf: PodSpec -> string)
    requires Serving(s, hashOf) && TemplateEdit(s, s') && EditReady(s, s', hashOf)
    ensures Serving(s', hashOf) && Desired(s'.dep) == Desired(s.dep)
  {
    OtherDeployment(s.rss, s.dep, s'.dep, hashOf);
    if NewKey(s', hashOf) == NewKey(s, hashOf) {
      SameKeySameHash(s.dep, Hash(s, hashOf), Hash(s', hashOf));
      SameOldSpecs(s.rss, s.dep, s'.dep, Hash(s, hashOf));
      assert forall k :: OldAt(s'.rss, s'.dep, Hash(s, hashOf), k) <==> OldAt(s.rss, s.dep, Hash(s, hashOf), k);
      assert forall k :: OldServes(s, k) ==> OldServes(s', k);
    } else {
      EditKeepsOlds(s, s', hashOf);
      EditKeepsTotal(s, s', hashOf);
    }
  }

  ghost predicate RepeatedStep(s: State, s': State, hashOf: PodSpec -> string) {
    RolloutStep(s, s', hashOf) || (TemplateEdit(s, s') && EditReady(s, s', hashOf))
  }

  ghost predicate RepeatedRun(trace: seq<State>, hashOf: PodSpec -> string) {
    |trace| > 0 && forall i :: 0 <= i < |trace| - 1 ==> RepeatedStep(trace[i], trace[i + 1], hashOf)
  }

  // Rollout after rollout, and rollbacks among them: as long as the template is edited only while the new
  // ReplicaSet has its pods ready, at least the desired number of pods are ready all the time.
  lemma {:induction false} RepeatedRolloutsKeepAvailable(trace: seq<State>, hashOf: PodSpec -> string, i: nat)
    requires RepeatedRun(trace, hashOf) && i < |trace|
    requires Serving(trace[0], hashOf)
    ensures Serving(trace[i], hashOf) && Desired(trace[i].dep) == Desired(trace[0].dep)
    ensures Desired(trace[0].dep) <= |ReadyPods(trace[i])|
  {
    if i > 0 {
      RepeatedRolloutsKeepAvailable(trace, hashOf, i - 1);
      if RolloutStep(trace[i - 1], trace[i], hashOf) {
        StepServing(trace[i - 1], trace[i], hashOf);
      } else {
        EditServing(trace[i - 1], trace[i], hashOf);
      }
    }
    ServingIsAvailable(trace[i], hashOf);
  }

  // In every state of every run without edits, at least the desired number of pods are ready.
  lemma RolloutKeepsAvailable(trace: seq<State>, hashOf: PodSpec -> string, i: nat)
    requires RolloutRun(trace, hashOf) && i < |trace|
    requires Serving(trace[0], hashOf)
    ensures Serving(trace[i], hashOf) && Desired(trace[i].dep) == Desired(trace[0].dep)
    ensures Desired(trace[0].dep) <= |ReadyPods(trace[i])|
  {
    RolloutIsRepeated(trace, hashOf);
    RepeatedRolloutsKeepAvailable(trace, hashOf, i);
  }

  lemma RolloutIsRepeated(trace: seq<State>, hashOf: PodSpec -> string)
    requires RolloutRun(trace, hashOf)
    ensures RepeatedRun(trace, hashOf)
  {
    forall i | 0 <= i < |trace| - 1
      ensures RepeatedStep(trace[i], trace[i + 1], hashOf)
    {
      assert RolloutStep(trace[i], trace[i + 1], hashOf);
    }
  }
}
