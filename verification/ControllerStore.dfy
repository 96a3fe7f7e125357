// The controllers' object store (controller/store.go), without its database copy.
module ControllerStore {
  import opened ApiTypes

  // Every object is stored under its own key.
  ghost predicate KeyedReplicaSets(rss: map<Key, ReplicaSet>) {
    forall k :: k in rss ==> rss[k].key == k
  }

  predicate InNamespace(k: Key, ns: string) {
    ns == "" || k.ns == ns
  }

  ghost predicate DistinctKeys(list: seq<ReplicaSet>) {
    forall i, j :: 0 <= i < j < |list| ==> list[i].key != list[j].key
  }

  // list is an enumeration, in some order, of the ReplicaSets in namespace ns.
  ghost predicate IsListing(list: seq<ReplicaSet>, rss: map<Key, ReplicaSet>, ns: string) {
    && (forall i :: 0 <= i < |list| ==>
          list[i].key in rss && rss[list[i].key] == list[i] && InNamespace(list[i].key, ns))
    && DistinctKeys(list)
    && (forall k :: k in rss && InNamespace(k, ns) ==> rss[k] in list)
  }

  lemma ListOneMore(list: seq<ReplicaSet>, rss: map<Key, ReplicaSet>, ns: string, rest: set<Key>, k: Key)
    requires KeyedReplicaSets(rss) && k in rest && rest <= rss.Keys && IsListing(list, rss - rest, ns)
    ensures IsListing(if InNamespace(k, ns) then list + [rss[k]] else list, rss - (rest - {k}), ns)
  {
    var now := if InNamespace(k, ns) then list + [rss[k]] else list;
    forall j | j in rss - (rest - {k}) && InNamespace(j, ns)
      ensures rss[j] in now
    {
      if j == k {
        assert now[|now| - 1] == rss[k];
      } else {
        assert j in rss - rest;
      }
    }
  }

  class Store {
    var deployments: map<Key, Deployment>
    var replicaSets: map<Key, ReplicaSet>

    constructor ()
      ensures deployments == map[] && replicaSets == map[]
    {
      deployments, replicaSets := map[], map[];
    }

    method StoreDeployment(dep: Deployment)
      modifies this
      ensures deployments == old(deployments)[dep.key := dep]
      ensures replicaSets == old(replicaSets)
    {
      deployments := deployments[dep.key := dep];
    }

    method StoreReplicaSet(rs: ReplicaSet)
      modifies this
      ensures replicaSets == old(replicaSets)[rs.key := rs]
      ensures deployments == old(deployments)
    {
      replicaSets := replicaSets[rs.key := rs];
    }

    method DeleteDeployment(k: Key)
      modifies this
      ensures deployments == old(deployments) - {k}
      ensures replicaSets == old(replicaSets)
    {
      deployments := deployments - {k};
    }

    method DeleteReplicaSet(k: Key)
      modifies this
      ensures replicaSets == old(replicaSets) - {k}
      ensures deployments == old(deployments)
    {
      replicaSets := replicaSets - {k};
    }

    // The order of the result is the map's own and not fixed.
    method ListReplicaSets(ns: string) returns (list: seq<ReplicaSet>)
      requires KeyedReplicaSets(replicaSets)
      ensures IsListing(list, replicaSets, ns)
    {
      list := [];
      var rest := replicaSets.Keys;
      while rest != {}
        invariant rest <= replicaSets.Keys
        invariant IsListing(list, replicaSets - rest, ns)
        decreases |rest|
      {
        var k :| k in rest;
        ListOneMore(list, replicaSets, ns, rest, k);
        rest := rest - {k};
        if InNamespace(k, ns) {
          list := list + [replicaSets[k]];
        }
      }
      assert replicaSets - {} == replicaSets;
    }
  }
}
