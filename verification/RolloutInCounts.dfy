// The two promises of a rollout, availability and its exact end, said of phases, containers and replica counts.
module RolloutInCounts {
  import opened ApiTypes
  import opened DeploymentController
  import opened DeploymentEffect
  import opened ReplicaSetController
  import opened Rollout
  import opened Availability
  import opened Convergence

  // The pods that serve: owned by a ReplicaSet that the deployment owns, not ended, and their first container ready.
  ghost function ServingPods(s: State): set<Key> {
    set p | p in s.pods
      && s.pods[p].key.ns == s.dep.key.ns
      && s.pods[p].owner.ReplicaSetOwner?
      && Key(s.dep.key.ns, s.pods[p].owner.name) in s.rss
      && s.rss[Key(s.dep.key.ns, s.pods[p].owner.name)].owner == DeploymentOwner(s.dep.key.name)
      && s.pods[p].status.phase != Succeeded && s.pods[p].status.phase != Failed
      && |s.pods[p].status.containersReady| > 0 && s.pods[p].status.containersReady[0] == true
  }

  // What the deployment asks for: one pod, if it does not say.
  function Asked(dep: Deployment): int {
    match dep.replicas
    case None => 1
    case Some(n) => n
  }

  lemma ServingIsReady(s: State)
    ensures ServingPods(s) == ReadyPods(s).Keys && |ServingPods(s)| == |ReadyPods(s)|
  {
    assert ServingPods(s) == ReadyPods(s).Keys;
  }

  // While template and size stay and no pod fails, the pods that serve are at least as many as asked for, in every
  // state of every run.
  lemma RolloutServes(trace: seq<State>, hashOf: PodSpec -> string, i: nat)
    requires RolloutRun(trace, hashOf) && i < |trace| && Serving(trace[0], hashOf)
    ensures Asked(trace[0].dep) <= |ServingPods(trace[i])|
  {
    RolloutKeepsAvailable(trace, hashOf, i);
    ServingIsReady(trace[i]);
  }

  lemma RoundsKeepSize(trace: seq<State>, hashOf: PodSpec -> string, i: nat)
    requires Rounds(trace, hashOf) && i < |trace|
    requires WellFormed(trace[0], hashOf) && SpecsSet(trace[0])
    ensures trace[i].dep.replicas == trace[0].dep.replicas
  {
    if i > 0 {
      RoundsKeepSize(trace, hashOf, i - 1);
      AfterRounds(trace, hashOf, i - 1);
      RoundAdvances(trace[i - 1], trace[i], hashOf);
    }
  }

  // From nothing, a deployment that asks for n pods, or for one by not saying, has exactly so many that serve after
  // the first round and any further ones.
  lemma FirstRolloutServes(trace: seq<State>, hashOf: PodSpec -> string, i: nat)
    requires Rounds(trace, hashOf) && 0 < i < |trace|
    requires WellFormed(trace[0], hashOf) && trace[0].rss == map[] && 0 <= Asked(trace[0].dep)
    ensures |ServingPods(trace[i])| == Asked(trace[0].dep)
  {
    ConvergesIff(trace, hashOf, i);
    AfterRounds(trace, hashOf, i);
    RoundsKeepSize(trace, hashOf, i);
    ConvergedExactly(trace[i], hashOf);
    ServingIsReady(trace[i]);
  }

  // A rollout that converges ends with exactly so many, all of the new ReplicaSet.
  lemma RolloutEnds(s: State, hashOf: PodSpec -> string)
    requires WellFormed(s, hashOf) && SpecsSet(s) && Converged(s, hashOf)
    ensures |ServingPods(s)| == Asked(s.dep)
    ensures forall p :: p in ServingPods(s) ==>
              s.pods[p].owner == ReplicaSetOwner(s.dep.key.name + "-" + hashOf(s.dep.template.spec))
  {
    ConvergedExactly(s, hashOf);
    ServingIsReady(s);
    NamesReserved(s, hashOf);
    forall p | p in ServingPods(s)
      ensures s.pods[p].owner == ReplicaSetOwner(s.dep.key.name + "-" + hashOf(s.dep.template.spec))
    {
      ServesNew(s, hashOf, p);
    }
  }

  lemma ServesNew(s: State, hashOf: PodSpec -> string, p: Key)
    requires NameReserved(s.rss, s.dep, Hash(s, hashOf)) && s.dep.key.ns != "" && p in ServingPods(s)
    requires forall k :: OldAt(s.rss, s.dep, Hash(s, hashOf), k) ==> ActiveOf(s.pods, k) == {}
    ensures s.pods[p].owner == ReplicaSetOwner(s.dep.key.name + "-" + hashOf(s.dep.template.spec))
  {
    var k := Key(s.dep.key.ns, s.pods[p].owner.name);
    assert p in ActiveOf(s.pods, k);
    assert OwnedAt(s.rss, s.dep, k) && !OldAt(s.rss, s.dep, Hash(s, hashOf), k);
  }
}
