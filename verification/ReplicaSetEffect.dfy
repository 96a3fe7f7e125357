// What the reconcile relation of a ReplicaSet means: exact counts, no reach beyond the ReplicaSet's own
// pods, nothing left to do the second time, and the one input that stops the program.
module ReplicaSetEffect {
  import opened ApiTypes
  import opened ReplicaSetController

  ghost function ActiveAmong(pods: map<Key, Pod>, ks: set<Key>): set<Key> {
    set p | p in ks && p in pods && pods[p].Active()
  }

  lemma LaunchedActive(pods: map<Key, Pod>, pods': map<Key, Pod>, rs: ReplicaSet, added: set<Key>)
    requires Launches(pods, pods', rs, added)
    ensures ActiveOf(pods', rs.key) == ActiveOf(pods, rs.key) + ActiveAmong(pods', added)
  {
  }

  lemma DeletedActive(pods: map<Key, Pod>, pods': map<Key, Pod>, rs: ReplicaSet, gone: set<Key>)
    requires Deletes(pods, pods', rs, gone)
    ensures ActiveOf(pods', rs.key) == ActiveOf(pods, rs.key) - gone
    ensures ReadyOf(pods', rs.key) == ReadyOf(pods, rs.key) - gone
  {
  }

  // Every pod that a reconcile adds and the environment reports is still active when it ends.
  ghost predicate NewPodsActive(pods: map<Key, Pod>, pods': map<Key, Pod>) {
    forall p :: p in pods' && p !in pods ==> pods'[p].Active()
  }

  ghost predicate NewPodsReady(pods: map<Key, Pod>, pods': map<Key, Pod>) {
    forall p :: p in pods' && p !in pods ==> pods'[p].Ready()
  }

  lemma LaunchedExactly(pods: map<Key, Pod>, pods': map<Key, Pod>, rs: ReplicaSet, added: set<Key>)
    requires Launches(pods, pods', rs, added) && NewPodsActive(pods, pods')
    ensures |ActiveOf(pods', rs.key)| == |ActiveOf(pods, rs.key)| + |added|
  {
    LaunchedActive(pods, pods', rs, added);
    assert ActiveAmong(pods', added) == added;
    CountUnion(ActiveOf(pods, rs.key), added);
  }

  lemma DeletedExactly(pods: map<Key, Pod>, pods': map<Key, Pod>, rs: ReplicaSet, gone: set<Key>)
    requires Deletes(pods, pods', rs, gone)
    ensures |ActiveOf(pods', rs.key)| == |ActiveOf(pods, rs.key)| - |gone|
  {
    DeletedActive(pods, pods', rs, gone);
    CountDifference(ActiveOf(pods, rs.key), gone);
  }

  // A completed reconcile leaves exactly the wanted number of active pods and reports it.
  lemma CompletedIsExact(pods: map<Key, Pod>, pods': map<Key, Pod>, rs: ReplicaSet)
    requires AdjustsPods(pods, pods', rs, Completed) && NewPodsActive(pods, pods')
    ensures |ActiveOf(pods', rs.key)| == Wanted(rs)
    ensures NextStatus(pods, pods', rs).replicas == Wanted(rs)
  {
    var have, want := |ActiveOf(pods, rs.key)|, Wanted(rs);
    if have < want {
      var added :| |added| == want - have && Launches(pods, pods', rs, added);
      LaunchedExactly(pods, pods', rs, added);
    } else {
      var gone :| |gone| == have - want && Deletes(pods, pods', rs, gone);
      DeletedExactly(pods, pods', rs, gone);
    }
  }

  lemma CountUnion(a: set<Key>, b: set<Key>)
    requires forall p :: p in a ==> p !in b
    ensures |a + b| == |a| + |b|
  {
    assert a * b == {};
  }

  lemma CountDifference(a: set<Key>, b: set<Key>)
    requires b <= a
    ensures |a - b| == |a| - |b|
  {
    assert a == b + (a - b);
  }

  lemma CountSubset(a: set<Key>, b: set<Key>)
    requires a <= b
    ensures |a| <= |b|
  {
    CountDifference(b, a);
  }

  // After any outcome at all, no more pods are active than were wanted or were already there.
  lemma NeverTooMany(pods: map<Key, Pod>, pods': map<Key, Pod>, rs: ReplicaSet, result: Result)
    requires AdjustsPods(pods, pods', rs, result)
    ensures |ActiveOf(pods', rs.key)| <= |ActiveOf(pods, rs.key)| || |ActiveOf(pods', rs.key)| <= Wanted(rs)
    ensures result == LaunchError ==> |ActiveOf(pods', rs.key)| < Wanted(rs)
  {
    var have, want := ActiveOf(pods, rs.key), Wanted(rs);
    match result
    case Completed =>
      if |have| < want {
        var added :| |added| == want - |have| && Launches(pods, pods', rs, added);
        LaunchedAtMost(pods, pods', rs, added);
      } else {
        var gone :| |gone| == |have| - want && Deletes(pods, pods', rs, gone);
        DeletedExactly(pods, pods', rs, gone);
      }
    case LaunchError =>
      var added :| |added| <= want - |have| && Launches(pods, pods', rs, added) && HasFailed(pods', added);
      LaunchedFewer(pods, pods', rs, added);
    case DeleteError =>
      var gone :| |gone| < |have| - want && Deletes(pods, pods', rs, gone);
      DeletedExactly(pods, pods', rs, gone);
    case IndexPanic =>
      assert ActiveOf(pods', rs.key) == {};
  }

  // A failed pod among the new ones is not active.
  lemma LaunchedFewer(pods: map<Key, Pod>, pods': map<Key, Pod>, rs: ReplicaSet, added: set<Key>)
    requires Launches(pods, pods', rs, added) && HasFailed(pods', added)
    ensures |ActiveOf(pods', rs.key)| < |ActiveOf(pods, rs.key)| + |added|
  {
    var p :| p in added && p in pods' && pods'[p].status.phase == Failed;
    var active := ActiveAmong(pods', added);
    LaunchedActive(pods, pods', rs, added);
    CountSubset(active, added - {p});
    CountUnion(ActiveOf(pods, rs.key), active);
  }

  lemma LaunchedAtMost(pods: map<Key, Pod>, pods': map<Key, Pod>, rs: ReplicaSet, added: set<Key>)
    requires Launches(pods, pods', rs, added)
    ensures |ActiveOf(pods', rs.key)| <= |ActiveOf(pods, rs.key)| + |added|
  {
    LaunchedActive(pods, pods', rs, added);
    var active := ActiveAmong(pods', added);
    CountSubset(active, added);
    CountUnion(ActiveOf(pods, rs.key), active);
  }

  // Pods of other owners, or in other namespaces, are out of reach, and a surviving pod is not rewritten.
  lemma TouchesOwnPodsOnly(pods: map<Key, Pod>, pods': map<Key, Pod>, rs: ReplicaSet, result: Result, p: Key)
    requires AdjustsPods(pods, pods', rs, result) && KeyedPods(pods) && rs.key.ns != ""
    ensures p in pods && p in pods' ==> pods'[p] == pods[p]
    ensures p in pods && p !in pods' ==> p in ActiveOf(pods, rs.key)
    ensures p !in pods && p in pods' ==>
              pods'[p].owner == ReplicaSetOwner(rs.key.name) && p.ns == rs.key.ns && pods'[p].key == p &&
              pods'[p].spec == rs.template.spec
  {
  }

  lemma KeepsPodsKeyed(pods: map<Key, Pod>, pods': map<Key, Pod>, rs: ReplicaSet, result: Result)
    requires AdjustsPods(pods, pods', rs, result) && KeyedPods(pods) && rs.key.ns != ""
    ensures KeyedPods(pods')
  {
    forall p | p in pods'
      ensures pods'[p].key == p
    {
      TouchesOwnPodsOnly(pods, pods', rs, result, p);
    }
  }

  // A second reconcile of a ReplicaSet launches and deletes nothing, and cannot fail.
  lemma SecondReconcileIsIdle(
    pods: map<Key, Pod>, pods': map<Key, Pod>, pods'': map<Key, Pod>, rs: ReplicaSet, result: Result)
    requires AdjustsPods(pods, pods', rs, Completed) && NewPodsActive(pods, pods')
    requires AdjustsPods(pods', pods'', rs, result)
    ensures result == Completed && pods'' == pods'
    ensures NextStatus(pods', pods'', rs) ==
            ReplicaSetStatus(Wanted(rs), |ReadyOf(pods', rs.key)|, |ReadyOf(pods', rs.key)|)
  {
    CompletedIsExact(pods, pods', rs);
    assert result == Completed;
    var gone :| |gone| == 0 && Deletes(pods', pods'', rs, gone);
    assert pods' - {} == pods';
  }

  // In terms of phases and counts ------------------------------------------------------------------------

  // A completed reconcile that adds only running pods leaves as many pods that neither succeeded nor failed, among
  // those of the ReplicaSet's namespace and owner, as it asks for: one, if it does not say.
  lemma CompletedInPhases(pods: map<Key, Pod>, pods': map<Key, Pod>, rs: ReplicaSet)
    requires AdjustsPods(pods, pods', rs, Completed)
    requires forall p :: p in pods' && p !in pods ==> pods'[p].status.phase == Running
    ensures |set p | p in pods' && (rs.key.ns == "" || pods'[p].key.ns == rs.key.ns)
                     && pods'[p].owner == ReplicaSetOwner(rs.key.name)
                     && pods'[p].status.phase != Succeeded && pods'[p].status.phase != Failed|
         == match rs.replicas case None => 1 case Some(n) => n
  {
    assert ActiveOf(pods', rs.key)
        == set p | p in pods' && (rs.key.ns == "" || pods'[p].key.ns == rs.key.ns)
                   && pods'[p].owner == ReplicaSetOwner(rs.key.name)
                   && pods'[p].status.phase != Succeeded && pods'[p].status.phase != Failed;
    CompletedIsExact(pods, pods', rs);
  }

  lemma LaunchesAdd(pods: map<Key, Pod>, pods': map<Key, Pod>, rs: ReplicaSet, added: set<Key>)
    requires Launches(pods, pods', rs, added)
    ensures pods'.Keys - pods.Keys == added
    ensures forall p :: p in added ==> FromTemplate(pods'[p], p, rs)
  {
  }

  // Pods that have ended are replaced: when all of the ReplicaSet's have, as many are added as it asks for, and
  // nothing else changes.
  lemma EndedAreReplaced(pods: map<Key, Pod>, pods': map<Key, Pod>, rs: ReplicaSet)
    requires AdjustsPods(pods, pods', rs, Completed) && rs.key.ns != ""
    requires forall p :: p in pods && pods[p].key.ns == rs.key.ns && pods[p].owner == ReplicaSetOwner(rs.key.name) ==>
               pods[p].status.phase == Succeeded || pods[p].status.phase == Failed
    ensures |pods'.Keys - pods.Keys| == match rs.replicas case None => 1 case Some(n) => n
    ensures forall p :: p in pods ==> p in pods' && pods'[p] == pods[p]
    ensures forall p :: p in pods' && p !in pods ==>
              pods'[p].key == p && p.ns == rs.key.ns && pods'[p].owner == ReplicaSetOwner(rs.key.name)
              && pods'[p].spec == rs.template.spec && pods'[p].labels == rs.template.labels
              && pods'[p].portAnnotation == rs.template.portAnnotation
              && pods'[p].uid != "" && rs.key.name + "-" <= p.name
  {
    assert ActiveOf(pods, rs.key) == {};
    var added := AddedFromNone(pods, pods', rs);
    LaunchesAdd(pods, pods', rs, added);
  }

  lemma AddedFromNone(pods: map<Key, Pod>, pods': map<Key, Pod>, rs: ReplicaSet) returns (added: set<Key>)
    requires AdjustsPods(pods, pods', rs, Completed) && ActiveOf(pods, rs.key) == {}
    ensures |added| == Wanted(rs) && Launches(pods, pods', rs, added)
  {
    if Wanted(rs) > 0 {
      added :| |added| == Wanted(rs) && Launches(pods, pods', rs, added);
    } else {
      var gone :| |gone| == 0 && Deletes(pods, pods', rs, gone);
      assert pods' == pods;
      added := {};
    }
  }

  // Whether a reconcile launched shows in the keys.
  lemma LaunchedIffMoreKeys(pods: map<Key, Pod>, pods': map<Key, Pod>, rs: ReplicaSet)
    requires AdjustsPods(pods, pods', rs, Completed)
    ensures pods'.Keys <= pods.Keys <==> Wanted(rs) <= |ActiveOf(pods, rs.key)|
  {
    if |ActiveOf(pods, rs.key)| < Wanted(rs) {
      var added :| |added| == Wanted(rs) - |ActiveOf(pods, rs.key)| && Launches(pods, pods', rs, added);
      LaunchesAdd(pods, pods', rs, added);
    }
  }

  // A pod counts as ready, in what a completed reconcile reports, if its first container is.  After launching, the
  // pods are looked at again; after deleting, the report is from before.
  lemma ReportedReadyPods(pods: map<Key, Pod>, pods': map<Key, Pod>, rs: ReplicaSet, seen: map<Key, Pod>)
    requires AdjustsPods(pods, pods', rs, Completed)
    requires seen == if pods'.Keys <= pods.Keys then pods else pods'
    ensures NextStatus(pods, pods', rs).ready
         == |set p | p in seen && (rs.key.ns == "" || seen[p].key.ns == rs.key.ns)
                     && seen[p].owner == ReplicaSetOwner(rs.key.name)
                     && seen[p].status.phase != Succeeded && seen[p].status.phase != Failed
                     && |seen[p].status.containersReady| > 0 && seen[p].status.containersReady[0] == true|
  {
    LaunchedIffMoreKeys(pods, pods', rs);
    assert ReadyOf(seen, rs.key)
        == set p | p in seen && (rs.key.ns == "" || seen[p].key.ns == rs.key.ns)
                   && seen[p].owner == ReplicaSetOwner(rs.key.name)
                   && seen[p].status.phase != Succeeded && seen[p].status.phase != Failed
                   && |seen[p].status.containersReady| > 0 && seen[p].status.containersReady[0] == true;
  }

  // When a launch fails, a new pod of the ReplicaSet stays with the phase Failed, and no old one has changed.
  lemma FailedLaunchIsStored(pods: map<Key, Pod>, pods': map<Key, Pod>, rs: ReplicaSet) returns (p: Key)
    requires AdjustsPods(pods, pods', rs, LaunchError)
    ensures p in pods' && p !in pods && pods'[p].status.phase == Failed
    ensures pods'[p].owner == ReplicaSetOwner(rs.key.name) && p.ns == rs.key.ns
    ensures forall k :: k in pods ==> k in pods' && pods'[k] == pods[k]
  {
    var added :| |added| <= Wanted(rs) - |ActiveOf(pods, rs.key)| && Launches(pods, pods', rs, added)
                 && HasFailed(pods', added);
    p :| p in added && p in pods' && pods'[p].status.phase == Failed;
  }
}
