// The two controllers as one transition system over a shared store: deployment reconciles, ReplicaSet
// reconciles, pods changing status, template edits, and everything other owners do.  Each reconcile is one
// atomic step that reads the current state.
module Rollout {
  import opened ApiTypes
  import opened ControllerStore
  import opened DeploymentController
  import opened DeploymentEffect
  import opened ReplicaSetController
  import opened ReplicaSetEffect

  datatype State = State(dep: Deployment, rss: map<Key, ReplicaSet>, pods: map<Key, Pod>)

  function Hash(s: State, hashOf: PodSpec -> string): string {
    hashOf(s.dep.template.spec)
  }

  function NewKey(s: State, hashOf: PodSpec -> string): Key {
    ReplicaSetKey(s.dep, Hash(s, hashOf))
  }

  // Names of the form <deployment>-<hash of a template> are the deployment's own, and its ReplicaSets carry
  // the hash that is in their name.
  ghost predicate WellNamed(rss: map<Key, ReplicaSet>, dep: Deployment, hashOf: PodSpec -> string) {
    && KeyedReplicaSets(rss)
    && dep.key.ns != "" && HASH_LABEL !in dep.selector
    && (forall k :: k in rss ==> k.ns != "")
    && (forall k :: OwnedAt(rss, dep, k) ==>
          HASH_LABEL in rss[k].labels && k == ReplicaSetKey(dep, rss[k].labels[HASH_LABEL]))
    && (forall spec :: ReplicaSetKey(dep, hashOf(spec)) in rss ==>
          var k := ReplicaSetKey(dep, hashOf(spec)); OwnedAt(rss, dep, k) && HasHash(rss[k], hashOf(spec)))
  }

  ghost predicate WellFormed(s: State, hashOf: PodSpec -> string) {
    WellNamed(s.rss, s.dep, hashOf) && KeyedPods(s.pods)
  }

  lemma SameKeySameHash(dep: Deployment, h1: string, h2: string)
    requires ReplicaSetKey(dep, h1) == ReplicaSetKey(dep, h2)
    ensures h1 == h2
  {
    var prefix := dep.key.name + "-";
    assert h1 == (prefix + h1)[|prefix|..];
    assert h2 == (prefix + h2)[|prefix|..];
  }

  lemma NamesReserved(s: State, hashOf: PodSpec -> string)
    requires WellNamed(s.rss, s.dep, hashOf)
    ensures NameReserved(s.rss, s.dep, Hash(s, hashOf))
  {
    assert NewKey(s, hashOf) == ReplicaSetKey(s.dep, hashOf(s.dep.template.spec));
  }

  // Steps ------------------------------------------------------------------------------------------------

  ghost predicate DeploymentTick(s: State, s': State, hashOf: PodSpec -> string) {
    && ReconcilesTo(s.rss, s'.rss, s.dep, Hash(s, hashOf))
    && s'.dep == s.dep.(status := s'.dep.status)
    && s'.pods == s.pods
  }

  ghost predicate ReplicaSetTick(s: State, s': State, k: Key, result: Result) {
    && k in s.rss
    && Reconciles(s.pods, s'.pods, s.rss, s'.rss, s.rss[k], result)
    && s'.dep == s.dep
  }

  // A pod's status changes: it becomes ready, it ends, it comes back after a restart.
  ghost predicate PodTick(s: State, s': State, p: Key) {
    && p in s.pods
    && exists status :: s' == s.(pods := s.pods[p := s.pods[p].(status := status)])
  }

  // The same, without a pod ending or losing readiness.
  ghost predicate PodImproves(s: State, s': State, p: Key) {
    && p in s.pods
    && exists status ::
         && s' == s.(pods := s.pods[p := s.pods[p].(status := status)])
         && (s.pods[p].Active() <==> s'.pods[p].Active())
         && (s.pods[p].Ready() ==> s'.pods[p].Ready())
  }

  ghost predicate TemplateEdit(s: State, s': State) {
    s' == s.(dep := s.dep.(template := s'.dep.template))
  }

  // Objects of other owners change in any way that respects the deployment's names.
  ghost predicate OthersTick(s: State, s': State, hashOf: PodSpec -> string) {
    && s'.dep == s.dep
    && WellFormed(s', hashOf)
    && Owned(s'.rss, s.dep) == Owned(s.rss, s.dep)
  }

  ghost predicate OwnPodsKept(s: State, s': State, hashOf: PodSpec -> string) {
    forall k :: OwnedAt(s.rss, s.dep, k) || k == NewKey(s, hashOf) ==>
      ActiveOf(s'.pods, k) == ActiveOf(s.pods, k) && ReadyOf(s'.pods, k) == ReadyOf(s.pods, k)
  }

  // Any step at all.
  ghost predicate Step(s: State, s': State, hashOf: PodSpec -> string) {
    || DeploymentTick(s, s', hashOf)
    || (exists k, result :: ReplicaSetTick(s, s', k, result))
    || (exists p :: PodTick(s, s', p))
    || TemplateEdit(s, s')
    || OthersTick(s, s', hashOf)
  }

  // A step of a rollout whose template and size stay fixed and whose pods do not fail.
  ghost predicate RolloutStep(s: State, s': State, hashOf: PodSpec -> string) {
    || DeploymentTick(s, s', hashOf)
    || (exists k, result :: ReplicaSetTick(s, s', k, result))
    || (exists p :: PodImproves(s, s', p))
    || (OthersTick(s, s', hashOf) && OwnPodsKept(s, s', hashOf))
  }

  // Well-formedness is kept by every step -----------------------------------------------------------------

  lemma DeploymentTickMoves(s: State, s': State, hashOf: PodSpec -> string)
    requires WellFormed(s, hashOf) && DeploymentTick(s, s', hashOf)
    ensures Moves(s.rss, s'.rss, s.dep, Hash(s, hashOf))
  {
    NamesReserved(s, hashOf);
    ReconcileMoves(s.rss, s'.rss, s.dep, Hash(s, hashOf));
  }

  lemma MovedLabels(
    rss: map<Key, ReplicaSet>, rss': map<Key, ReplicaSet>, dep: Deployment, hash: string, k: Key)
    requires KeyedReplicaSets(rss) && MovesAt(rss, rss', dep, hash, k) && k in rss'
    ensures rss'[k].key == k
    ensures rss'[k].owner == if k in rss then rss[k].owner else DeploymentOwner(dep.key.name)
    ensures rss'[k].labels == if k in rss then rss[k].labels else map[HASH_LABEL := hash] + dep.selector
    ensures rss'[k].template == if k in rss then rss[k].template else dep.template
    ensures rss'[k].status == if k in rss then rss[k].status else ReplicaSetStatus(0, 0, 0)
  {
  }

  lemma MovesWellNamed(
    rss: map<Key, ReplicaSet>, rss': map<Key, ReplicaSet>, dep: Deployment, hash: string, hashOf: PodSpec -> string)
    requires WellNamed(rss, dep, hashOf) && Moves(rss, rss', dep, hash)
    ensures WellNamed(rss', dep, hashOf)
  {
    var nk := ReplicaSetKey(dep, hash);
    forall k | k in rss'
      ensures rss'[k].key == k && k.ns != ""
      ensures OwnedAt(rss', dep, k) ==>
                HASH_LABEL in rss'[k].labels && k == ReplicaSetKey(dep, rss'[k].labels[HASH_LABEL])
    {
      assert MovesAt(rss, rss', dep, hash, k);
      MovedLabels(rss, rss', dep, hash, k);
    }
    forall spec | ReplicaSetKey(dep, hashOf(spec)) in rss'
      ensures OwnedAt(rss', dep, ReplicaSetKey(dep, hashOf(spec)))
      ensures HasHash(rss'[ReplicaSetKey(dep, hashOf(spec))], hashOf(spec))
    {
      var k := ReplicaSetKey(dep, hashOf(spec));
      assert MovesAt(rss, rss', dep, hash, k);
      MovedLabels(rss, rss', dep, hash, k);
      if k !in rss {
        SameKeySameHash(dep, hashOf(spec), hash);
      }
    }
  }

  lemma DeploymentTickWellFormed(s: State, s': State, hashOf: PodSpec -> string)
    requires WellFormed(s, hashOf) && DeploymentTick(s, s', hashOf)
    ensures WellFormed(s', hashOf)
  {
    DeploymentTickMoves(s, s', hashOf);
    MovesWellNamed(s.rss, s'.rss, s.dep, Hash(s, hashOf), hashOf);
    OtherDeployment(s'.rss, s.dep, s'.dep, hashOf);
  }

  // Names depend on the deployment's key and selector only.
  lemma OtherDeployment(rss: map<Key, ReplicaSet>, dep: Deployment, dep': Deployment, hashOf: PodSpec -> string)
    requires WellNamed(rss, dep, hashOf) && dep'.key == dep.key && dep'.selector == dep.selector
    ensures WellNamed(rss, dep', hashOf)
  {
    assert forall h :: ReplicaSetKey(dep', h) == ReplicaSetKey(dep, h);
    assert forall k :: OwnedAt(rss, dep', k) <==> OwnedAt(rss, dep, k);
  }

  // A ReplicaSet reconcile writes statuses, and counts in them, and nothing else into the store.
  ghost predicate OnlyStatusesChanged(rss: map<Key, ReplicaSet>, rss': map<Key, ReplicaSet>) {
    && rss'.Keys == rss.Keys
    && forall k :: k in rss ==>
         && rss'[k] == rss[k].(status := rss'[k].status)
         && (0 <= rss[k].status.ready ==> 0 <= rss'[k].status.ready)
  }

  lemma ReplicaSetTickStatuses(s: State, s': State, k: Key, result: Result)
    requires KeyedReplicaSets(s.rss) && ReplicaSetTick(s, s', k, result)
    ensures OnlyStatusesChanged(s.rss, s'.rss)
    ensures forall j :: j in s.rss && j != k ==> s'.rss[j] == s.rss[j]
  {
  }

  lemma StatusesWellNamed(
    rss: map<Key, ReplicaSet>, rss': map<Key, ReplicaSet>, dep: Deployment, hashOf: PodSpec -> string)
    requires WellNamed(rss, dep, hashOf) && OnlyStatusesChanged(rss, rss')
    ensures WellNamed(rss', dep, hashOf)
  {
  }

  lemma ReplicaSetTickWellFormed(s: State, s': State, k: Key, result: Result, hashOf: PodSpec -> string)
    requires WellFormed(s, hashOf) && ReplicaSetTick(s, s', k, result)
    ensures WellFormed(s', hashOf)
  {
    ReplicaSetTickStatuses(s, s', k, result);
    StatusesWellNamed(s.rss, s'.rss, s.dep, hashOf);
    KeepsPodsKeyed(s.pods, s'.pods, s.rss[k], result);
  }

  lemma StepWellFormed(s: State, s': State, hashOf: PodSpec -> string)
    requires WellFormed(s, hashOf) && Step(s, s', hashOf)
    ensures WellFormed(s', hashOf)
  {
    if DeploymentTick(s, s', hashOf) {
      DeploymentTickWellFormed(s, s', hashOf);
    } else if exists k, result :: ReplicaSetTick(s, s', k, result) {
      var k, result :| ReplicaSetTick(s, s', k, result);
      ReplicaSetTickWellFormed(s, s', k, result, hashOf);
    } else if TemplateEdit(s, s') {
      OtherDeployment(s.rss, s.dep, s'.dep, hashOf);
    }
  }

  // Runs ---------------------------------------------------------------------------------------------------

  ghost predicate Run(trace: seq<State>, hashOf: PodSpec -> string) {
    |trace| > 0 && forall i :: 0 <= i < |trace| - 1 ==> Step(trace[i], trace[i + 1], hashOf)
  }

  ghost predicate RolloutRun(trace: seq<State>, hashOf: PodSpec -> string) {
    |trace| > 0 && forall i :: 0 <= i < |trace| - 1 ==> RolloutStep(trace[i], trace[i + 1], hashOf)
  }
}
