// A template edit in the middle of a rollout: when it can cost availability, exactly.  Without an edit every
// interleaving keeps the desired number of pods ready; an edit turns the new ReplicaSet into an old one, and what it
// asks for then counts as served whether its pods are ready or not.
module EditAvailability {
  import opened ApiTypes
  import opened Totals
  import opened ControllerStore
  import opened DeploymentController
  import opened DeploymentEffect
  import opened ReplicaSetController
  import opened ReplicaSetEffect
  import opened Rollout
  import opened Availability
  import opened Convergence
  import opened RoundExistence

  ghost predicate Reaches(s: State, s': State, hashOf: PodSpec -> string) {
    exists trace :: RolloutRun(trace, hashOf) && trace[0] == s && trace[|trace| - 1] == s'
  }

  // Whatever the controllers do, and whichever pods become ready, enough pods stay ready.
  ghost predicate StaysAvailable(s: State, hashOf: PodSpec -> string) {
    forall s' :: Reaches(s, s', hashOf) ==> Desired(s.dep) <= |ReadyPods(s')|
  }

  lemma ReachesFirst(s: State, m: State, s': State, hashOf: PodSpec -> string)
    requires RolloutStep(s, m, hashOf) && Reaches(m, s', hashOf)
    ensures Reaches(s, s', hashOf)
  {
    var rest :| RolloutRun(rest, hashOf) && rest[0] == m && rest[|rest| - 1] == s';
    var trace := [s] + rest;
    forall i | 0 <= i < |trace| - 1
      ensures RolloutStep(trace[i], trace[i + 1], hashOf)
    {
      if i > 0 {
        assert RolloutStep(rest[i - 1], rest[i], hashOf);
      }
    }
    assert RolloutRun(trace, hashOf);
  }

  lemma {:induction false} SweepIsRun(s: State, order: seq<Key>, s': State, hashOf: PodSpec -> string)
    requires Sweep(s, order, s')
    ensures Reaches(s, s', hashOf)
    decreases |order|
  {
    if order == [] {
      assert RolloutRun([s], hashOf);
    } else {
      var m :| SweepTick(s, m, order[0]) && Sweep(m, order[1..], s');
      SweepIsRun(m, order[1..], s', hashOf);
      ReachesFirst(s, m, s', hashOf);
    }
  }

  // A sweep leaves the pods of ReplicaSets it does not come to alone.
  lemma {:induction false} SweepSpares(s: State, order: seq<Key>, s': State, k: Key)
    requires Sound(s) && Sweep(s, order, s') && k !in order && k.ns != ""
    ensures ReadyOf(s'.pods, k) == ReadyOf(s.pods, k)
    decreases |order|
  {
    if order != [] {
      var m :| SweepTick(s, m, order[0]) && Sweep(m, order[1..], s');
      var result :| ReplicaSetTick(s, m, order[0], result);
      SweepTickSound(s, m, order[0]);
      OtherKeysKept(s.pods, m.pods, s.rss[order[0]], result, k);
      SweepSpares(m, order[1..], s', k);
    }
  }

  // Listings that begin with a given old ReplicaSet --------------------------------------------------------

  lemma OldsAppend(list: seq<ReplicaSet>, last: ReplicaSet, dep: Deployment, hash: string)
    ensures Olds(list + [last], dep, hash) ==
            Olds(list, dep, hash) + if OwnedBy(last, dep) && !HasHash(last, hash) then [last] else []
  {
    assert (list + [last])[..|list|] == list;
  }

  lemma {:induction false} OldsPrepend(first: ReplicaSet, rest: seq<ReplicaSet>, dep: Deployment, hash: string)
    requires OwnedBy(first, dep) && !HasHash(first, hash)
    ensures Olds([first] + rest, dep, hash) == [first] + Olds(rest, dep, hash)
  {
    var list := [first] + rest;
    if rest == [] {
      assert list == [first] && list[..0] == [];
    } else {
      var init, last := rest[..|rest| - 1], rest[|rest| - 1];
      OldsPrepend(first, init, dep, hash);
      assert list == ([first] + init) + [last] && rest == init + [last];
      OldsAppend([first] + init, last, dep, hash);
      OldsAppend(init, last, dep, hash);
    }
  }

  lemma ListingWithFirst(rss: map<Key, ReplicaSet>, ns: string, k: Key) returns (list: seq<ReplicaSet>)
    requires KeyedReplicaSets(rss) && k in rss && InNamespace(k, ns)
    ensures IsListing(list, rss, ns) && |list| > 0 && list[0] == rss[k]
  {
    var rest := ListingExists(rss - {k}, ns);
    list := [rss[k]] + rest;
    forall j | j in rss && InNamespace(j, ns)
      ensures rss[j] in list
    {
      if j != k {
        assert rss[j] == (rss - {k})[j] && rss[j] in rest;
      }
    }
  }

  // A reconcile that reads an old ReplicaSet first leaves it what it asks for, as far as the allowance goes.
  lemma TickWithFirst(s: State, hashOf: PodSpec -> string, k: Key) returns (s': State)
    requires WellFormed(s, hashOf) && SpecsSet(s) && OldAt(s.rss, s.dep, Hash(s, hashOf), k)
    ensures DeploymentTick(s, s', hashOf) && WellFormed(s', hashOf) && SpecsSet(s')
    ensures OldAt(s'.rss, s'.dep, Hash(s, hashOf), k)
    ensures SpecOf(s'.rss[k]) == Min(SpecOf(s.rss[k]), Allowance(s.rss, s.dep, Hash(s, hashOf)))
  {
    var hash := Hash(s, hashOf);
    var list := ListingWithFirst(s.rss, s.dep.key.ns, k);
    s' := s.(rss := Reconciled(s.rss, s.dep, hash, list));
    FirstKeepsItsSpec(s.rss, s.dep, hashOf, list, k);
    assert DeploymentTick(s, s', hashOf);
    TickKeepsSpecsSet(s, s', hashOf);
    DeploymentTickMoves(s, s', hashOf);
    assert MovesAt(s.rss, s'.rss, s.dep, hash, k);
    assert k in OldSpecs(s'.rss, s.dep, hash).Keys;
  }

  lemma FirstKeepsItsSpec(
    rss: map<Key, ReplicaSet>, dep: Deployment, hashOf: PodSpec -> string, list: seq<ReplicaSet>, k: Key)
    requires WellNamed(rss, dep, hashOf) && OldAt(rss, dep, hashOf(dep.template.spec), k)
    requires IsListing(list, rss, dep.key.ns) && |list| > 0 && list[0] == rss[k]
    ensures var hash := hashOf(dep.template.spec);
      var rss' := Reconciled(rss, dep, hash, list);
      k in rss' && SpecOf(rss'[k]) == Min(SpecOf(rss[k]), Allowance(rss, dep, hash))
  {
    var hash := hashOf(dep.template.spec);
    var olds := Olds(list, dep, hash);
    NamesReserved(State(dep, rss, map[]), hashOf);
    assert list == [list[0]] + list[1..];
    OldsPrepend(list[0], list[1..], dep, hash);
    OldsDistinct(list, dep, hash);
    ReconciledInTwoSteps(rss, dep, hash, list);
    SharesStored(Grown(rss, dep, hash), olds, Allowance(rss, dep, hash), |olds|, k);
    assert olds[0].key == k;
  }

  // Counting what is left ------------------------------------------------------------------------------------

  // Bounds on the parts bound the whole.
  lemma CountAtMost<P, K>(owner: map<P, K>, bounds: map<K, int>)
    requires forall p :: p in owner ==> owner[p] in bounds.Keys
    requires forall k :: k in bounds ==> |Part(owner, k)| <= bounds[k]
    ensures |owner| <= Total(bounds)
  {
    CountByOwner(owner, bounds.Keys);
    TotalMonotone(Sizes(owner, bounds.Keys), bounds);
  }

  lemma ReadyAtMost(s: State, hashOf: PodSpec -> string, bounds: map<Key, int>)
    requires WellFormed(s, hashOf) && bounds.Keys == OwnedKeys(s)
    requires forall k :: k in bounds ==> |ReadyOf(s.pods, k)| <= bounds[k]
    ensures |ReadyPods(s)| <= Total(bounds)
  {
    var owner := ReadyPods(s);
    forall k | k in bounds
      ensures |Part(owner, k)| <= bounds[k]
    {
      ReadyPart(s, hashOf, k);
    }
    OwnersOwned(s);
    CountAtMost(owner, bounds);
  }

  lemma OwnersOwned(s: State)
    ensures forall p :: p in ReadyPods(s) ==> ReadyPods(s)[p] in OwnedKeys(s)
  {
  }

  // The old ReplicaSets' pods have at most the given numbers ready, and the new one's at most y.
  ghost predicate ReadyWithin(s: State, hash: string, olds: map<Key, int>, y: int) {
    && olds.Keys == OldSpecs(s.rss, s.dep, hash).Keys
    && (forall k :: k in olds ==> |ReadyOf(s.pods, k)| <= olds[k])
    && |ReadyOf(s.pods, ReplicaSetKey(s.dep, hash))| <= y
  }

  lemma ReadyWithinTotal(s: State, hashOf: PodSpec -> string, olds: map<Key, int>, y: int)
    requires WellFormed(s, hashOf) && NewKey(s, hashOf) in s.rss && ReadyWithin(s, Hash(s, hashOf), olds, y)
    ensures |ReadyPods(s)| <= Total(olds) + y
  {
    NamesReserved(s, hashOf);
    WithNew(s, Hash(s, hashOf), olds, y);
    ReadyAtMost(s, hashOf, olds[NewKey(s, hashOf) := y]);
  }

  lemma WithNew(s: State, hash: string, olds: map<Key, int>, y: int)
    requires NameReserved(s.rss, s.dep, hash) && ReplicaSetKey(s.dep, hash) in s.rss
    requires olds.Keys == OldSpecs(s.rss, s.dep, hash).Keys
    ensures olds[ReplicaSetKey(s.dep, hash) := y].Keys == OwnedKeys(s)
    ensures Total(olds[ReplicaSetKey(s.dep, hash) := y]) == Total(olds) + y
  {
    var nk := ReplicaSetKey(s.dep, hash);
    assert nk !in OldSpecs(s.rss, s.dep, hash).Keys;
    TotalUpdate(olds, nk, y);
    PromisedKeys(s, hash);
  }

  // Draining -------------------------------------------------------------------------------------------------

  lemma SweepTickCounts(s: State, s': State, k: Key)
    requires Sound(s) && SweepTick(s, s', k) && OwnedAt(s.rss, s.dep, k) && s.rss[k].replicas.Some?
    ensures |ReadyOf(s'.pods, k)| <= SpecOf(s.rss[k])
  {
    CompletedIsExact(s.pods, s'.pods, s.rss[k]);
    CountSubset(ReadyOf(s'.pods, k), ActiveOf(s'.pods, k));
  }

  // A sweep leaves no ReplicaSet it comes to more ready pods than it asks for.
  lemma {:induction false} SweepCounts(s: State, order: seq<Key>, s': State, k: Key)
    requires Sound(s) && Sweep(s, order, s') && k in order
    requires OwnedAt(s.rss, s.dep, k) && s.rss[k].replicas.Some?
    ensures |ReadyOf(s'.pods, k)| <= SpecOf(s.rss[k])
    decreases |order|
  {
    var m :| SweepTick(s, m, order[0]) && Sweep(m, order[1..], s');
    SweepTickSound(s, m, order[0]);
    if order[0] == k {
      SweepTickCounts(s, m, k);
      SweepSpares(m, order[1..], s', k);
    } else {
      StatusesKeepOwned(s.rss, m.rss, s.dep, k);
      SweepCounts(m, order[1..], s', k);
    }
  }

  ghost predicate Drained(s: State, s': State, keys: set<Key>) {
    && s'.dep == s.dep && OnlyStatusesChanged(s.rss, s'.rss)
    && (forall k :: k in keys ==> k in s'.rss && |ReadyOf(s'.pods, k)| <= SpecOf(s'.rss[k]))
    && (forall k :: k !in keys && k.ns != "" ==> ReadyOf(s'.pods, k) == ReadyOf(s.pods, k))
  }

  // Reconciling some of the deployment's ReplicaSets brings their ready pods down to what they ask for.
  lemma DrainExists(s: State, hashOf: PodSpec -> string, keys: set<Key>) returns (s': State)
    requires WellFormed(s, hashOf) && SpecsSet(s) && keys <= OwnedKeys(s)
    ensures Reaches(s, s', hashOf) && WellFormed(s', hashOf)
    ensures Drained(s, s', keys)
  {
    var order;
    order, s' := SweepExists(s, keys);
    SweepIsRun(s, order, s', hashOf);
    SweepStatuses(s, order, s');
    StatusesWellNamed(s.rss, s'.rss, s.dep, hashOf);
    forall k | k in keys
      ensures |ReadyOf(s'.pods, k)| <= SpecOf(s'.rss[k])
    {
      SweepCounts(s, order, s', k);
    }
    forall k | k !in keys && k.ns != ""
      ensures ReadyOf(s'.pods, k) == ReadyOf(s.pods, k)
    {
      SweepSpares(s, order, s', k);
    }
  }

  // One ReplicaSet reconcile, as far as the others are concerned.
  ghost predicate Ticked(s: State, s': State, k: Key) {
    && k in s.rss && s'.dep == s.dep && OnlyStatusesChanged(s.rss, s'.rss)
    && (forall j :: j in s.rss && j != k ==> s'.rss[j] == s.rss[j])
    && (forall j :: j != k && j.ns != "" ==>
          ActiveOf(s'.pods, j) == ActiveOf(s.pods, j) && ReadyOf(s'.pods, j) == ReadyOf(s.pods, j))
  }

  lemma TickTo(s: State, hashOf: PodSpec -> string, k: Key, pods': map<Key, Pod>) returns (s': State)
    requires WellFormed(s, hashOf) && SpecsSet(s) && k in s.rss
    requires AdjustsPods(s.pods, pods', s.rss[k], Completed)
    ensures RolloutStep(s, s', hashOf) && WellFormed(s', hashOf) && SpecsSet(s')
    ensures Ticked(s, s', k) && s'.pods == pods'
    ensures s'.rss[k].status == NextStatus(s.pods, pods', s.rss[k])
  {
    var rs := s.rss[k];
    s' := State(s.dep, s.rss[k := rs.(status := NextStatus(s.pods, pods', rs))], pods');
    assert ReplicaSetTick(s, s', k, Completed);
    ReplicaSetTickWellFormed(s, s', k, Completed, hashOf);
    ReplicaSetTickStatuses(s, s', k, Completed);
    StatusesKeepSpecsSet(s, s');
    forall j | j != k && j.ns != ""
      ensures ActiveOf(s'.pods, j) == ActiveOf(s.pods, j) && ReadyOf(s'.pods, j) == ReadyOf(s.pods, j)
    {
      OtherKeysKept(s.pods, pods', rs, Completed, j);
    }
  }

  lemma UnavailableAt(s: State, s': State, hashOf: PodSpec -> string)
    requires Reaches(s, s', hashOf) && |ReadyPods(s')| < Desired(s.dep)
    ensures !StaysAvailable(s, hashOf)
  {
  }

  lemma UnavailableLater(s: State, m: State, hashOf: PodSpec -> string)
    requires RolloutStep(s, m, hashOf) && Desired(m.dep) == Desired(s.dep) && !StaysAvailable(m, hashOf)
    ensures !StaysAvailable(s, hashOf)
  {
    var s' :| Reaches(m, s', hashOf) && |ReadyPods(s')| < Desired(m.dep);
    ReachesFirst(s, m, s', hashOf);
  }

  // The new ReplicaSet reports too much ------------------------------------------------------------------------

  // What the old ReplicaSets ask for after a deployment reconcile and a sweep is what the reconcile left them.
  lemma DrainedWithin(s: State, s': State, hashOf: PodSpec -> string, y: int)
    requires WellFormed(s, hashOf) && WellFormed(s', hashOf) && NewKey(s, hashOf) in s.rss
    requires Drained(s, s', OldSpecs(s.rss, s.dep, Hash(s, hashOf)).Keys)
    requires |ReadyOf(s.pods, NewKey(s, hashOf))| <= y
    ensures ReadyWithin(s', Hash(s, hashOf), OldSpecs(s.rss, s.dep, Hash(s, hashOf)), y)
  {
    NamesReserved(s, hashOf);
    StatusesKeepOldSpecs(s.rss, s'.rss, s.dep, Hash(s, hashOf));
  }

  lemma DrainOlds(s: State, hashOf: PodSpec -> string, olds: map<Key, int>, y: int) returns (s': State)
    requires WellFormed(s, hashOf) && SpecsSet(s) && NewKey(s, hashOf) in s.rss
    requires olds == OldSpecs(s.rss, s.dep, Hash(s, hashOf)) && |ReadyOf(s.pods, NewKey(s, hashOf))| <= y
    ensures Reaches(s, s', hashOf) && |ReadyPods(s')| <= Total(olds) + y
  {
    s' := DrainExists(s, hashOf, olds.Keys);
    DrainedWithin(s, s', hashOf, y);
    ReadyWithinTotal(s', hashOf, olds, y);
  }

  // The reconcile takes from the old ReplicaSets what the new one only seems to have.
  lemma OverReported(s: State, hashOf: PodSpec -> string)
    requires WellFormed(s, hashOf) && SpecsSet(s) && NewKey(s, hashOf) in s.rss
    requires |ReadyOf(s.pods, NewKey(s, hashOf))| < Desired(s.dep)
    requires |ReadyOf(s.pods, NewKey(s, hashOf))| < s.rss[NewKey(s, hashOf)].status.ready
    ensures !StaysAvailable(s, hashOf)
  {
    var nk, hash := NewKey(s, hashOf), Hash(s, hashOf);
    var m := ReconcileExists(s, hashOf);
    DeploymentTickMoves(s, m, hashOf);
    MovedNumbers(s, m, hash);
    var s' := DrainOlds(m, hashOf, OldSpecs(m.rss, m.dep, hash), |ReadyOf(s.pods, nk)|);
    UnavailableAt(m, s', hashOf);
    UnavailableLater(s, m, hashOf);
  }

  // Deleting down to fewer pods than there are, the reconcile also reports the ready pods from before.
  lemma OverStaffed(s: State, hashOf: PodSpec -> string)
    requires WellFormed(s, hashOf) && SpecsSet(s) && NewKey(s, hashOf) in s.rss
    requires OldServes(s, NewKey(s, hashOf))
    requires SpecOf(s.rss[NewKey(s, hashOf)]) < Desired(s.dep)
    requires SpecOf(s.rss[NewKey(s, hashOf)]) < |ActiveOf(s.pods, NewKey(s, hashOf))|
    ensures !StaysAvailable(s, hashOf)
  {
    var nk := NewKey(s, hashOf);
    var pods' := DeletePossible(s.pods, s.rss[nk]);
    var m := TickTo(s, hashOf, nk, pods');
    CompletedIsExact(s.pods, pods', s.rss[nk]);
    CountSubset(ReadyOf(pods', nk), ActiveOf(pods', nk));
    CountSubset(ActiveOf(s.pods, nk), ReadyOf(s.pods, nk));
    OverReported(m, hashOf);
    UnavailableLater(s, m, hashOf);
  }

  // A ReplicaSet that is not served ------------------------------------------------------------------------------

  function UnreadyPod(p: Key, rs: ReplicaSet): Pod {
    ReadyPod(p, rs).(status := PodStatus(Running, [false], 0))
  }

  lemma FillPossible(pods: map<Key, Pod>, rs: ReplicaSet) returns (pods': map<Key, Pod>)
    requires |ActiveOf(pods, rs.key)| < Wanted(rs)
    ensures AdjustsPods(pods, pods', rs, Completed)
    ensures |ActiveOf(pods', rs.key)| == Wanted(rs) && ReadyOf(pods', rs.key) == ReadyOf(pods, rs.key)
  {
    var added := FreshKeys(pods.Keys, rs.key, Wanted(rs) - |ActiveOf(pods, rs.key)|);
    pods' := pods + map p | p in added :: UnreadyPod(p, rs);
    assert Launches(pods, pods', rs, added);
    assert AdjustsPods(pods, pods', rs, Completed);
    UnreadyLaunched(pods, pods', rs, added);
    CompletedIsExact(pods, pods', rs);
  }

  lemma UnreadyLaunched(pods: map<Key, Pod>, pods': map<Key, Pod>, rs: ReplicaSet, added: set<Key>)
    requires Launches(pods, pods', rs, added)
    requires forall p :: p in added ==> pods'[p] == UnreadyPod(p, rs)
    ensures NewPodsActive(pods, pods') && ReadyOf(pods', rs.key) == ReadyOf(pods, rs.key)
  {
  }

  lemma FillExists(s: State, hashOf: PodSpec -> string, k: Key) returns (s': State)
    requires WellFormed(s, hashOf) && SpecsSet(s) && OwnedAt(s.rss, s.dep, k)
    requires |ActiveOf(s.pods, k)| <= SpecOf(s.rss[k])
    ensures (s' == s || RolloutStep(s, s', hashOf)) && WellFormed(s', hashOf) && SpecsSet(s') && Ticked(s, s', k)
    ensures |ActiveOf(s'.pods, k)| == SpecOf(s.rss[k]) && ReadyOf(s'.pods, k) == ReadyOf(s.pods, k)
  {
    s' := s;
    if |ActiveOf(s.pods, k)| < SpecOf(s.rss[k]) {
      var pods' := FillPossible(s.pods, s.rss[k]);
      s' := TickTo(s, hashOf, k, pods');
    }
  }

  // A deletion can leave a pod that is not ready.
  lemma CutPossible(pods: map<Key, Pod>, rs: ReplicaSet) returns (pods': map<Key, Pod>)
    requires 1 <= Wanted(rs) <= |ActiveOf(pods, rs.key)| && |ReadyOf(pods, rs.key)| < |ActiveOf(pods, rs.key)|
    ensures AdjustsPods(pods, pods', rs, Completed) && |ReadyOf(pods', rs.key)| < Wanted(rs)
  {
    var active, ready := ActiveOf(pods, rs.key), ReadyOf(pods, rs.key);
    assert exists p :: p in active && p !in ready by {
      SubsetIffAsMany(ready, active);
    }
    var kept :| kept in active && kept !in ready;
    CountDifference(active, {kept});
    var gone := PartOfSize(active - {kept}, |active| - Wanted(rs));
    pods' := pods - gone;
    assert Deletes(pods, pods', rs, gone);
    DeletedActive(pods, pods', rs, gone);
    DeletedExactly(pods, pods', rs, gone);
    CountSubset(ReadyOf(pods', rs.key), ActiveOf(pods', rs.key) - {kept});
    CountDifference(ActiveOf(pods', rs.key), {kept});
  }

  lemma CutExists(s: State, hashOf: PodSpec -> string, k: Key) returns (s': State)
    requires WellFormed(s, hashOf) && SpecsSet(s) && OwnedAt(s.rss, s.dep, k)
    requires 1 <= SpecOf(s.rss[k]) <= |ActiveOf(s.pods, k)| && |ReadyOf(s.pods, k)| < |ActiveOf(s.pods, k)|
    ensures RolloutStep(s, s', hashOf) && WellFormed(s', hashOf) && SpecsSet(s') && Ticked(s, s', k)
    ensures |ReadyOf(s'.pods, k)| < SpecOf(s.rss[k])
  {
    var pods' := CutPossible(s.pods, s.rss[k]);
    s' := TickTo(s, hashOf, k, pods');
  }

  // What the old ReplicaSets have ready at most, when k has fewer ready pods than it asks for.
  ghost function AfterCut(s: State, hash: string, k: Key): map<Key, int> {
    map j | j in s.rss && OldAt(s.rss, s.dep, hash, j) :: SpecOf(s.rss[j]) - if j == k then 1 else 0
  }

  lemma AfterCutTotal(s: State, hash: string, k: Key)
    requires OldAt(s.rss, s.dep, hash, k)
    ensures Total(AfterCut(s, hash, k)) == OldTotal(s, hash) - 1
  {
    var olds := OldSpecs(s.rss, s.dep, hash);
    assert AfterCut(s, hash, k) == olds[k := olds[k] - 1];
    TotalUpdate(olds, k, olds[k] - 1);
  }

  lemma CutWithinAt(s: State, m: State, s': State, hash: string, k: Key, j: Key)
    requires k in s.rss && OnlyStatusesChanged(s.rss, m.rss) && |ReadyOf(m.pods, k)| < SpecOf(s.rss[k])
    requires Drained(m, s', OldSpecs(s.rss, s.dep, hash).Keys - {k})
    requires OldAt(s.rss, s.dep, hash, j) && j.ns != ""
    ensures |ReadyOf(s'.pods, j)| <= AfterCut(s, hash, k)[j]
  {
    assert j in OldSpecs(s.rss, s.dep, hash).Keys;
  }

  lemma CutWithin(s: State, m: State, s': State, hash: string, k: Key, y: int)
    requires Ticked(s, m, k) && |ReadyOf(m.pods, k)| < SpecOf(s.rss[k])
    requires Drained(m, s', OldSpecs(s.rss, s.dep, hash).Keys - {k})
    requires forall j :: OldAt(s.rss, s.dep, hash, j) ==> j.ns != ""
    requires |ReadyOf(s'.pods, ReplicaSetKey(s.dep, hash))| <= y
    ensures ReadyWithin(s', hash, AfterCut(s, hash, k), y)
  {
    StatusesCompose(s.rss, m.rss, s'.rss);
    AfterCutKeys(s, s', hash, k);
    forall j | j in AfterCut(s, hash, k)
      ensures |ReadyOf(s'.pods, j)| <= AfterCut(s, hash, k)[j]
    {
      CutWithinAt(s, m, s', hash, k, j);
    }
  }

  lemma AfterCutKeys(s: State, s': State, hash: string, k: Key)
    requires OnlyStatusesChanged(s.rss, s'.rss) && s'.dep == s.dep
    ensures AfterCut(s, hash, k).Keys == OldSpecs(s'.rss, s'.dep, hash).Keys
  {
    StatusesKeepOldSpecs(s.rss, s'.rss, s.dep, hash);
  }

  lemma DrainOthers(s: State, m: State, hashOf: PodSpec -> string, k: Key) returns (s': State)
    requires WellFormed(s, hashOf) && OldAt(s.rss, s.dep, Hash(s, hashOf), k) && NewKey(s, hashOf) in s.rss
    requires WellFormed(m, hashOf) && SpecsSet(m)
    requires Ticked(s, m, k) && |ReadyOf(m.pods, k)| < SpecOf(s.rss[k])
    ensures Reaches(m, s', hashOf)
    ensures |ReadyPods(s')| <= Total(AfterCut(s, Hash(s, hashOf), k)) + |ReadyOf(s.pods, NewKey(s, hashOf))|
  {
    var hash, olds := Hash(s, hashOf), OldSpecs(s.rss, s.dep, Hash(s, hashOf));
    CutKeysOwned(s, m, hash, k);
    s' := DrainExists(m, hashOf, olds.Keys - {k});
    CutCount(s, m, s', hashOf, k);
  }

  lemma CutKeysOwned(s: State, m: State, hash: string, k: Key)
    requires Ticked(s, m, k)
    ensures OldSpecs(s.rss, s.dep, hash).Keys - {k} <= OwnedKeys(m)
  {
    StatusesKeepOldSpecs(s.rss, m.rss, s.dep, hash);
  }

  lemma CutCount(s: State, m: State, s': State, hashOf: PodSpec -> string, k: Key)
    requires WellFormed(s, hashOf) && OldAt(s.rss, s.dep, Hash(s, hashOf), k) && NewKey(s, hashOf) in s.rss
    requires Ticked(s, m, k) && |ReadyOf(m.pods, k)| < SpecOf(s.rss[k])
    requires Drained(m, s', OldSpecs(s.rss, s.dep, Hash(s, hashOf)).Keys - {k}) && WellFormed(s', hashOf)
    ensures |ReadyPods(s')| <= Total(AfterCut(s, Hash(s, hashOf), k)) + |ReadyOf(s.pods, NewKey(s, hashOf))|
  {
    var hash, y := Hash(s, hashOf), |ReadyOf(s.pods, NewKey(s, hashOf))|;
    NewKeySpared(s, m, s', hashOf, k, OldSpecs(s.rss, s.dep, hash).Keys - {k});
    CutWithin(s, m, s', hash, k, y);
    ReadyWithinTotal(s', hashOf, AfterCut(s, hash, k), y);
  }

  lemma NewKeySpared(s: State, m: State, s': State, hashOf: PodSpec -> string, k: Key, keys: set<Key>)
    requires WellFormed(s, hashOf) && OldAt(s.rss, s.dep, Hash(s, hashOf), k) && Ticked(s, m, k)
    requires keys <= OldSpecs(s.rss, s.dep, Hash(s, hashOf)).Keys && Drained(m, s', keys)
    ensures ReadyOf(s'.pods, NewKey(s, hashOf)) == ReadyOf(s.pods, NewKey(s, hashOf))
  {
    NamesReserved(s, hashOf);
    assert NewKey(s, hashOf) !in OldSpecs(s.rss, s.dep, Hash(s, hashOf)).Keys;
  }

  // After the reconcile that read k first, k is cut down and the other old ReplicaSets are drained.
  lemma CutAndDrained(s: State, hashOf: PodSpec -> string, k: Key)
    requires WellFormed(s, hashOf) && SpecsSet(s) && OldAt(s.rss, s.dep, Hash(s, hashOf), k)
    requires NewKey(s, hashOf) in s.rss
    requires 1 <= SpecOf(s.rss[k]) <= |ActiveOf(s.pods, k)| && |ReadyOf(s.pods, k)| < |ActiveOf(s.pods, k)|
    requires OldTotal(s, Hash(s, hashOf)) + |ReadyOf(s.pods, NewKey(s, hashOf))| <= Desired(s.dep)
    ensures !StaysAvailable(s, hashOf)
  {
    var m := CutExists(s, hashOf, k);
    var s' := DrainOthers(s, m, hashOf, k);
    AfterCutTotal(s, Hash(s, hashOf), k);
    UnavailableAt(m, s', hashOf);
    UnavailableLater(s, m, hashOf);
  }

  // An old ReplicaSet that is full but not ready, while the new one could be short of pods.
  lemma Unserved(s: State, hashOf: PodSpec -> string, k: Key)
    requires WellFormed(s, hashOf) && SpecsSet(s) && OldAt(s.rss, s.dep, Hash(s, hashOf), k)
    requires |ReadyOf(s.pods, k)| < |ActiveOf(s.pods, k)| == SpecOf(s.rss[k])
    requires |ReadyOf(s.pods, NewKey(s, hashOf))| <= Reported(s, Hash(s, hashOf)) < Desired(s.dep)
    ensures !StaysAvailable(s, hashOf)
  {
    var m := TickWithFirst(s, hashOf, k);
    DeploymentTickMoves(s, m, hashOf);
    MovedNumbers(s, m, Hash(s, hashOf));
    CutAndDrained(m, hashOf, k);
    UnavailableLater(s, m, hashOf);
  }

  // The ReplicaSet that is not served is filled up first, with pods that are not ready.
  lemma UnservedFilled(s: State, hashOf: PodSpec -> string, k: Key)
    requires WellFormed(s, hashOf) && SpecsSet(s) && OldAt(s.rss, s.dep, Hash(s, hashOf), k)
    requires |ReadyOf(s.pods, k)| < SpecOf(s.rss[k]) && |ActiveOf(s.pods, k)| <= SpecOf(s.rss[k])
    requires |ReadyOf(s.pods, NewKey(s, hashOf))| <= Reported(s, Hash(s, hashOf)) < Desired(s.dep)
    ensures !StaysAvailable(s, hashOf)
  {
    var m := FillExists(s, hashOf, k);
    FilledAlike(s, m, hashOf, k);
    Unserved(m, hashOf, k);
    if m != s {
      UnavailableLater(s, m, hashOf);
    }
  }

  lemma FilledAlike(s: State, m: State, hashOf: PodSpec -> string, k: Key)
    requires WellFormed(s, hashOf) && Ticked(s, m, k) && OldAt(s.rss, s.dep, Hash(s, hashOf), k)
    ensures OldAt(m.rss, m.dep, Hash(m, hashOf), k) && SpecOf(m.rss[k]) == SpecOf(s.rss[k])
    ensures Reported(m, Hash(m, hashOf)) == Reported(s, Hash(s, hashOf))
    ensures ReadyOf(m.pods, NewKey(s, hashOf)) == ReadyOf(s.pods, NewKey(s, hashOf))
  {
    NamesReserved(s, hashOf);
    StatusesKeepOldSpecs(s.rss, m.rss, s.dep, Hash(s, hashOf));
    assert k != NewKey(s, hashOf) && NewKey(s, hashOf).ns != "";
    assert NewKey(s, hashOf) in m.rss <==> NewKey(s, hashOf) in s.rss;
  }

  // The new ReplicaSet has exactly its pods; a reconcile of it reports them.
  lemma UnservedReported(s: State, hashOf: PodSpec -> string, k: Key)
    requires WellFormed(s, hashOf) && SpecsSet(s) && OldAt(s.rss, s.dep, Hash(s, hashOf), k)
    requires |ReadyOf(s.pods, k)| < SpecOf(s.rss[k]) && |ActiveOf(s.pods, k)| <= SpecOf(s.rss[k])
    requires OldServes(s, NewKey(s, hashOf))
    requires |ActiveOf(s.pods, NewKey(s, hashOf))| == SpecOf(s.rss[NewKey(s, hashOf)]) < Desired(s.dep)
    ensures !StaysAvailable(s, hashOf)
  {
    var nk := NewKey(s, hashOf);
    var pods' := DeletePossible(s.pods, s.rss[nk]);
    IdleDelete(s.pods, pods', s.rss[nk]);
    CountSubset(ReadyOf(s.pods, nk), ActiveOf(s.pods, nk));
    var m := TickTo(s, hashOf, nk, pods');
    NewTickedAlike(s, m, hashOf, k);
    UnservedFilled(m, hashOf, k);
    UnavailableLater(s, m, hashOf);
  }

  lemma IdleDelete(pods: map<Key, Pod>, pods': map<Key, Pod>, rs: ReplicaSet)
    requires AdjustsPods(pods, pods', rs, Completed) && |ActiveOf(pods, rs.key)| == Wanted(rs)
    ensures pods' == pods
  {
    var gone :| |gone| == 0 && Deletes(pods, pods', rs, gone);
    assert pods' == pods;
  }

  lemma NewTickedAlike(s: State, m: State, hashOf: PodSpec -> string, k: Key)
    requires WellFormed(s, hashOf) && Ticked(s, m, NewKey(s, hashOf)) && OldAt(s.rss, s.dep, Hash(s, hashOf), k)
    ensures OldAt(m.rss, m.dep, Hash(m, hashOf), k) && SpecOf(m.rss[k]) == SpecOf(s.rss[k])
    ensures Reported(m, Hash(m, hashOf)) == m.rss[NewKey(s, hashOf)].status.ready
  {
    NamesReserved(s, hashOf);
    StatusesKeepOldSpecs(s.rss, m.rss, s.dep, Hash(s, hashOf));
  }

  // The new ReplicaSet asks for enough already -------------------------------------------------------------------

  // The new ReplicaSet alone asks for the desired number and has it ready; the controllers do not shrink it below.
  ghost predicate NewSuffices(s: State, hashOf: PodSpec -> string) {
    && WellFormed(s, hashOf) && OldServes(s, NewKey(s, hashOf))
    && Desired(s.dep) <= SpecOf(s.rss[NewKey(s, hashOf)])
  }

  lemma SufficesIsAvailable(s: State, hashOf: PodSpec -> string)
    requires NewSuffices(s, hashOf)
    ensures Desired(s.dep) <= |ReadyPods(s)|
  {
    var nk := NewKey(s, hashOf);
    NamesReserved(s, hashOf);
    ReadyPart(s, hashOf, nk);
    ReadyAtLeastSpec(s, nk);
    assert Part(ReadyPods(s), nk) <= ReadyPods(s).Keys;
    CountSubset(Part(ReadyPods(s), nk), ReadyPods(s).Keys);
  }

  lemma TickSuffices(s: State, s': State, hashOf: PodSpec -> string)
    requires NewSuffices(s, hashOf) && 0 <= Desired(s.dep) && DeploymentTick(s, s', hashOf)
    ensures NewSuffices(s', hashOf)
  {
    DeploymentTickWellFormed(s, s', hashOf);
    DeploymentTickMoves(s, s', hashOf);
    assert MovesAt(s.rss, s'.rss, s.dep, Hash(s, hashOf), NewKey(s, hashOf));
  }

  lemma ReplicaSetTickSuffices(s: State, s': State, hashOf: PodSpec -> string, k: Key, result: Result)
    requires NewSuffices(s, hashOf) && ReplicaSetTick(s, s', k, result)
    ensures NewSuffices(s', hashOf)
  {
    ReplicaSetTickWellFormed(s, s', k, result, hashOf);
    ReplicaSetTickStatuses(s, s', k, result);
    ReplicaSetTickServesOld(s, s', k, result, NewKey(s, hashOf));
  }

  lemma OthersTickSuffices(s: State, s': State, hashOf: PodSpec -> string)
    requires NewSuffices(s, hashOf) && OthersTick(s, s', hashOf) && OwnPodsKept(s, s', hashOf)
    ensures NewSuffices(s', hashOf)
  {
    NamesReserved(s, hashOf);
    SameOwned(s.rss, s'.rss, s.dep, Hash(s, hashOf));
    assert OwnedAt(s'.rss, s.dep, NewKey(s, hashOf));
  }

  lemma StepSuffices(s: State, s': State, hashOf: PodSpec -> string)
    requires NewSuffices(s, hashOf) && 0 <= Desired(s.dep) && RolloutStep(s, s', hashOf)
    ensures NewSuffices(s', hashOf) && Desired(s'.dep) == Desired(s.dep)
  {
    if DeploymentTick(s, s', hashOf) {
      TickSuffices(s, s', hashOf);
    } else if exists k, result :: ReplicaSetTick(s, s', k, result) {
      var k, result :| ReplicaSetTick(s, s', k, result);
      ReplicaSetTickSuffices(s, s', hashOf, k, result);
    } else if exists p :: PodImproves(s, s', p) {
      var p :| PodImproves(s, s', p);
      PodImprovesKeys(s, s', p, NewKey(s, hashOf));
    } else {
      OthersTickSuffices(s, s', hashOf);
    }
  }

  lemma {:induction false} RunSuffices(trace: seq<State>, hashOf: PodSpec -> string, i: nat)
    requires RolloutRun(trace, hashOf) && i < |trace|
    requires NewSuffices(trace[0], hashOf) && 0 <= Desired(trace[0].dep)
    ensures NewSuffices(trace[i], hashOf) && Desired(trace[i].dep) == Desired(trace[0].dep)
  {
    if i > 0 {
      RunSuffices(trace, hashOf, i - 1);
      StepSuffices(trace[i - 1], trace[i], hashOf);
    }
  }

  // The theorem --------------------------------------------------------------------------------------------------

  lemma ServingStays(s: State, hashOf: PodSpec -> string)
    requires Serving(s, hashOf)
    ensures StaysAvailable(s, hashOf)
  {
    forall s' | Reaches(s, s', hashOf)
      ensures Desired(s.dep) <= |ReadyPods(s')|
    {
      ServingReaches(s, s', hashOf);
    }
  }

  lemma ServingReaches(s: State, s': State, hashOf: PodSpec -> string)
    requires Serving(s, hashOf) && Reaches(s, s', hashOf)
    ensures Desired(s.dep) <= |ReadyPods(s')|
  {
    var trace :| RolloutRun(trace, hashOf) && trace[0] == s && trace[|trace| - 1] == s';
    RolloutKeepsAvailable(trace, hashOf, |trace| - 1);
  }

  lemma SufficesStays(s: State, hashOf: PodSpec -> string)
    requires NewSuffices(s, hashOf) && 0 <= Desired(s.dep)
    ensures StaysAvailable(s, hashOf)
  {
    forall s' | Reaches(s, s', hashOf)
      ensures Desired(s.dep) <= |ReadyPods(s')|
    {
      var trace :| RolloutRun(trace, hashOf) && trace[0] == s && trace[|trace| - 1] == s';
      RunSuffices(trace, hashOf, |trace| - 1);
      SufficesIsAvailable(s', hashOf);
    }
  }

  // The ReplicaSet that an edit makes the new one, if it exists, asks for enough by itself.
  ghost predicate TargetSuffices(s: State, s': State, hashOf: PodSpec -> string) {
    var target := NewKey(s', hashOf);
    target in s.rss && Desired(s.dep) <= SpecOf(s.rss[target])
  }

  lemma EditedSound(s: State, s': State, hashOf: PodSpec -> string)
    requires Serving(s, hashOf) && TemplateEdit(s, s')
    ensures WellFormed(s', hashOf) && SpecsSet(s')
  {
    OtherDeployment(s.rss, s.dep, s'.dep, hashOf);
    NamesReserved(s, hashOf);
    forall k | OwnedAt(s'.rss, s'.dep, k)
      ensures s'.rss[k].replicas.Some? && 0 <= SpecOf(s'.rss[k])
    {
      assert OwnedAt(s.rss, s.dep, k);
      assert k != NewKey(s, hashOf) ==> OldAt(s.rss, s.dep, Hash(s, hashOf), k);
    }
  }

  // A ReplicaSet that has no more than it asks for and is not served has fewer ready pods.
  lemma NotServed(s: State, k: Key)
    requires k in s.rss && NewServes(s, k) && !OldServes(s, k)
    ensures |ReadyOf(s.pods, k)| < SpecOf(s.rss[k])
  {
    SubsetIffAsMany(ReadyOf(s.pods, k), ActiveOf(s.pods, k));
    CountSubset(ReadyOf(s.pods, k), ActiveOf(s.pods, k));
  }

  // An edit to a template that has no ReplicaSet yet.
  lemma FreshUnavailable(s: State, s': State, hashOf: PodSpec -> string)
    requires Serving(s, hashOf) && TemplateEdit(s, s') && NewKey(s', hashOf) !in s.rss
    requires ActiveOf(s.pods, NewKey(s', hashOf)) == {}
    requires NewKey(s, hashOf) in s.rss && !OldServes(s, NewKey(s, hashOf))
    ensures !StaysAvailable(s', hashOf)
  {
    EditedSound(s, s', hashOf);
    TargetIsOld(s', s, hashOf);
    NotServed(s, NewKey(s, hashOf));
    assert ReadyOf(s.pods, NewKey(s', hashOf)) == {};
    UnservedFilled(s', hashOf, NewKey(s, hashOf));
  }

  // An edit back to a template that has an old ReplicaSet.
  lemma RollbackUnavailable(s: State, s': State, hashOf: PodSpec -> string)
    requires Serving(s, hashOf) && TemplateEdit(s, s') && NewKey(s', hashOf) in s.rss
    requires NewKey(s', hashOf) != NewKey(s, hashOf)
    requires !EditReady(s, s', hashOf) && !TargetSuffices(s, s', hashOf)
    ensures !StaysAvailable(s', hashOf)
  {
    var target := NewKey(s', hashOf);
    EditedSound(s, s', hashOf);
    TargetIsOld(s, s', hashOf);
    assert OldServes(s', target);
    ReadyAtLeastSpec(s', target);
    CountSubset(ReadyOf(s.pods, target), ActiveOf(s.pods, target));
    if SpecOf(s.rss[target]) < |ActiveOf(s.pods, target)| {
      OverStaffed(s', hashOf);
    } else if !NewServes(s, target) {
      OverReported(s', hashOf);
    } else {
      NotServed(s, NewKey(s, hashOf));
      TargetIsOld(s', s, hashOf);
      UnservedReported(s', hashOf, NewKey(s, hashOf));
    }
  }

  // An edit or rollback at any moment of a rollout keeps the desired number of pods ready through everything that
  // can follow if and only if the ReplicaSet that was the new one has ready what it asks for, and the one that becomes
  // the new one has no more than it asks for and reports no more than it has, or that one suffices by itself.
  lemma EditKeepsAvailableIff(s: State, s': State, hashOf: PodSpec -> string)
    requires Serving(s, hashOf) && TemplateEdit(s, s')
    requires NewKey(s', hashOf) !in s.rss ==> ActiveOf(s.pods, NewKey(s', hashOf)) == {}
    ensures StaysAvailable(s', hashOf) <==> EditReady(s, s', hashOf) || TargetSuffices(s, s', hashOf)
  {
    if EditReady(s, s', hashOf) {
      EditServing(s, s', hashOf);
      ServingStays(s', hashOf);
    } else if TargetSuffices(s, s', hashOf) {
      EditedSound(s, s', hashOf);
      TargetIsOld(s, s', hashOf);
      assert OldServes(s', NewKey(s', hashOf));
      SufficesStays(s', hashOf);
    } else if NewKey(s', hashOf) in s.rss {
      RollbackUnavailable(s, s', hashOf);
    } else {
      FreshUnavailable(s, s', hashOf);
    }
  }

  // A second edit right after the first reconcile of a rollout can cost availability, however many pods were ready.
  lemma EditTooSoon(s: State, s': State, s'': State, hashOf: PodSpec -> string)
    requires RolloutStarts(s, hashOf) && 1 <= Desired(s.dep)
    requires DeploymentTick(s, s', hashOf) && TemplateEdit(s', s'')
    requires NewKey(s'', hashOf) !in s'.rss && ActiveOf(s'.pods, NewKey(s'', hashOf)) == {}
    ensures !StaysAvailable(s'', hashOf)
  {
    StartServes(s, hashOf);
    StepServing(s, s', hashOf);
    DeploymentTickMoves(s, s', hashOf);
    assert MovesAt(s.rss, s'.rss, s.dep, Hash(s, hashOf), NewKey(s, hashOf));
    assert 1 <= SpecOf(s'.rss[NewKey(s', hashOf)]);
    FreshUnavailable(s', s'', hashOf);
  }
}
