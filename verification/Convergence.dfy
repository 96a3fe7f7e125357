// Convergence of a rollout, in rounds: a deployment reconcile, then pods becoming ready, then one
// reconcile of every ReplicaSet in any order with its launches working.
module Convergence {
  import opened ApiTypes
  import opened Totals
  import opened ControllerStore
  import opened DeploymentController
  import opened DeploymentEffect
  import opened ReplicaSetController
  import opened ReplicaSetEffect
  import opened Rollout
  import opened Availability
  import opened Surge

  // Every active pod of the deployment's ReplicaSets becomes ready.
  ghost predicate PodsBecomeReady(s: State, s': State) {
    && s'.dep == s.dep && s'.rss == s.rss && KeyedPods(s'.pods)
    && forall k :: OwnedAt(s.rss, s.dep, k) ==>
         ActiveOf(s'.pods, k) == ActiveOf(s.pods, k) && ActiveOf(s'.pods, k) <= ReadyOf(s'.pods, k)
  }

  // One ReplicaSet reconcile of a sweep; the deployment's own ones work and their pods start ready.
  ghost predicate SweepTick(s: State, s': State, k: Key) {
    exists result ::
      && ReplicaSetTick(s, s', k, result)
      && (OwnedAt(s.rss, s.dep, k) ==>
            result == Completed && NewPodsActive(s.pods, s'.pods) && NewPodsReady(s.pods, s'.pods))
  }

  ghost predicate Sweep(s: State, order: seq<Key>, s': State)
    decreases |order|
  {
    if order == [] then s' == s
    else order[0] !in order[1..] && exists m :: SweepTick(s, m, order[0]) && Sweep(m, order[1..], s')
  }

  ghost predicate RoundVia(
    s: State, reconciled: State, ready: State, order: seq<Key>, s': State, hashOf: PodSpec -> string)
  {
    && DeploymentTick(s, reconciled, hashOf)
    && PodsBecomeReady(reconciled, ready)
    && (forall k :: k in ready.rss ==> k in order)
    && Sweep(ready, order, s')
  }

  ghost predicate Round(s: State, s': State, hashOf: PodSpec -> string) {
    exists reconciled, ready, order :: RoundVia(s, reconciled, ready, order, s', hashOf)
  }

  // Sweeps -----------------------------------------------------------------------------------------------

  // A ReplicaSet with exactly the pods it asks for, all ready and reported.
  ghost predicate SettledAt(s: State, k: Key) {
    && k in s.rss && s.rss[k].replicas.Some?
    && |ActiveOf(s.pods, k)| == SpecOf(s.rss[k])
    && ActiveOf(s.pods, k) <= ReadyOf(s.pods, k)
    && SpecOf(s.rss[k]) <= s.rss[k].status.ready
  }

  // A ReplicaSet that one reconcile can settle.
  ghost predicate SettleableAt(s: State, k: Key) {
    && k in s.rss && s.rss[k].replicas.Some? && 0 <= SpecOf(s.rss[k])
    && ActiveOf(s.pods, k) <= ReadyOf(s.pods, k)
  }

  lemma CompletedStaysReady(pods: map<Key, Pod>, pods': map<Key, Pod>, rs: ReplicaSet)
    requires AdjustsPods(pods, pods', rs, Completed) && NewPodsReady(pods, pods')
    requires ActiveOf(pods, rs.key) <= ReadyOf(pods, rs.key)
    ensures ActiveOf(pods', rs.key) <= ReadyOf(pods', rs.key)
  {
    var have, want := |ActiveOf(pods, rs.key)|, Wanted(rs);
    if have < want {
      var added :| |added| == want - have && Launches(pods, pods', rs, added);
      forall p | p in ActiveOf(pods', rs.key)
        ensures pods'[p].Ready()
      {
        assert p in pods ==> p in ActiveOf(pods, rs.key);
      }
    } else {
      var gone :| |gone| == have - want && Deletes(pods, pods', rs, gone);
      DeletedServes(pods, pods', rs, gone);
    }
  }

  lemma CompletedReportsEnough(pods: map<Key, Pod>, pods': map<Key, Pod>, rs: ReplicaSet)
    requires AdjustsPods(pods, pods', rs, Completed) && NewPodsActive(pods, pods') && NewPodsReady(pods, pods')
    requires ActiveOf(pods, rs.key) <= ReadyOf(pods, rs.key)
    ensures Wanted(rs) <= NextStatus(pods, pods', rs).ready
  {
    CompletedIsExact(pods, pods', rs);
    CompletedStaysReady(pods, pods', rs);
    CountSubset(ActiveOf(pods, rs.key), ReadyOf(pods, rs.key));
    CountSubset(ActiveOf(pods', rs.key), ReadyOf(pods', rs.key));
  }

  // What a sweep needs to know about a state.
  ghost predicate Sound(s: State) {
    KeyedReplicaSets(s.rss) && KeyedPods(s.pods) && forall k :: k in s.rss ==> k.ns != ""
  }

  lemma SweepTickSound(s: State, s': State, k: Key)
    requires Sound(s) && SweepTick(s, s', k)
    ensures Sound(s') && s'.dep == s.dep && OnlyStatusesChanged(s.rss, s'.rss)
  {
    var result :| ReplicaSetTick(s, s', k, result);
    ReplicaSetTickStatuses(s, s', k, result);
    KeepsPodsKeyed(s.pods, s'.pods, s.rss[k], result);
  }

  lemma SweepTickSettles(s: State, s': State, k: Key)
    requires Sound(s) && SweepTick(s, s', k) && OwnedAt(s.rss, s.dep, k) && SettleableAt(s, k)
    ensures SettledAt(s', k)
  {
    CompletedIsExact(s.pods, s'.pods, s.rss[k]);
    CompletedStaysReady(s.pods, s'.pods, s.rss[k]);
    CompletedReportsEnough(s.pods, s'.pods, s.rss[k]);
  }

  lemma SweepTickKeeps(s: State, s': State, k: Key, j: Key)
    requires Sound(s) && SweepTick(s, s', k) && j != k
    ensures SettledAt(s, j) ==> SettledAt(s', j)
    ensures SettleableAt(s, j) ==> SettleableAt(s', j)
  {
    if j in s.rss {
      var result :| ReplicaSetTick(s, s', k, result);
      ReplicaSetTickStatuses(s, s', k, result);
      OtherKeysKept(s.pods, s'.pods, s.rss[k], result, j);
    }
  }

  lemma StatusesCompose(rss: map<Key, ReplicaSet>, rss': map<Key, ReplicaSet>, rss'': map<Key, ReplicaSet>)
    requires OnlyStatusesChanged(rss, rss') && OnlyStatusesChanged(rss', rss'')
    ensures OnlyStatusesChanged(rss, rss'')
  {
  }

  lemma StatusesKeepOwned(rss: map<Key, ReplicaSet>, rss': map<Key, ReplicaSet>, dep: Deployment, k: Key)
    requires OnlyStatusesChanged(rss, rss')
    ensures OwnedAt(rss', dep, k) <==> OwnedAt(rss, dep, k)
  {
  }

  lemma {:induction false} SweepStatuses(s: State, order: seq<Key>, s': State)
    requires Sound(s) && Sweep(s, order, s')
    ensures Sound(s') && s'.dep == s.dep && OnlyStatusesChanged(s.rss, s'.rss)
    decreases |order|
  {
    if order != [] {
      var m :| SweepTick(s, m, order[0]) && Sweep(m, order[1..], s');
      SweepTickSound(s, m, order[0]);
      SweepStatuses(m, order[1..], s');
      StatusesCompose(s.rss, m.rss, s'.rss);
    }
  }

  lemma {:induction false} SweepKeeps(s: State, order: seq<Key>, s': State, k: Key)
    requires Sound(s) && Sweep(s, order, s') && k !in order && SettledAt(s, k)
    ensures SettledAt(s', k)
    decreases |order|
  {
    if order != [] {
      var m :| SweepTick(s, m, order[0]) && Sweep(m, order[1..], s');
      SweepTickSound(s, m, order[0]);
      SweepTickKeeps(s, m, order[0], k);
      SweepKeeps(m, order[1..], s', k);
    }
  }

  // A sweep settles a ReplicaSet when it comes to it, and leaves it settled.
  lemma {:induction false} SweepSettles(s: State, order: seq<Key>, s': State, k: Key)
    requires Sound(s) && Sweep(s, order, s') && k in order
    requires OwnedAt(s.rss, s.dep, k) && SettleableAt(s, k)
    ensures SettledAt(s', k)
    decreases |order|
  {
    var m :| SweepTick(s, m, order[0]) && Sweep(m, order[1..], s');
    SweepTickSound(s, m, order[0]);
    if order[0] == k {
      SweepTickSettles(s, m, k);
      SweepKeeps(m, order[1..], s', k);
    } else {
      SweepTickKeeps(s, m, order[0], k);
      StatusesKeepOwned(s.rss, m.rss, s.dep, k);
      SweepSettles(m, order[1..], s', k);
    }
  }

  // Rounds -----------------------------------------------------------------------------------------------

  // The counts that the deployment's ReplicaSets ask for are set and not negative.
  ghost predicate SpecsSet(s: State) {
    && 0 <= Desired(s.dep)
    && forall k :: OwnedAt(s.rss, s.dep, k) ==> s.rss[k].replicas.Some? && 0 <= SpecOf(s.rss[k])
  }

  ghost predicate Settled(s: State) {
    forall k :: OwnedAt(s.rss, s.dep, k) ==> SettledAt(s, k)
  }

  ghost predicate SameSize(s: State, s': State) {
    s'.dep == s.dep.(status := s'.dep.status)
  }

  // What a round does to specs: what its deployment reconcile does; every ReplicaSet ends settled.
  ghost predicate RoundMoves(s: State, s': State, hash: string) {
    && SameSize(s, s')
    && exists moved :: Moves(s.rss, moved, s.dep, hash) && OnlyStatusesChanged(moved, s'.rss)
  }

  lemma MovedSpecsSet(s: State, moved: map<Key, ReplicaSet>, hash: string, k: Key)
    requires SpecsSet(s) && Moves(s.rss, moved, s.dep, hash) && OwnedAt(moved, s.dep, k)
    ensures moved[k].replicas.Some? && 0 <= SpecOf(moved[k])
  {
    assert MovesAt(s.rss, moved, s.dep, hash, k);
  }

  lemma RoundEffect(s: State, s': State, hashOf: PodSpec -> string)
    requires WellFormed(s, hashOf) && SpecsSet(s) && Round(s, s', hashOf)
    ensures WellFormed(s', hashOf) && SpecsSet(s') && Settled(s')
    ensures RoundMoves(s, s', Hash(s, hashOf))
  {
    var r, ready, order :| RoundVia(s, r, ready, order, s', hashOf);
    DeploymentTickMoves(s, r, hashOf);
    DeploymentTickWellFormed(s, r, hashOf);
    SweepStatuses(ready, order, s');
    StatusesWellNamed(r.rss, s'.rss, r.dep, hashOf);
    forall k | OwnedAt(s'.rss, s'.dep, k)
      ensures SettledAt(s', k)
    {
      StatusesKeepOwned(r.rss, s'.rss, r.dep, k);
      MovedSpecsSet(s, r.rss, Hash(s, hashOf), k);
      SweepSettles(ready, order, s', k);
    }
  }

  // Numbers of a rollout ----------------------------------------------------------------------------------

  ghost function NewSpec(s: State, hash: string): int {
    SpecOf(CurrentNew(s.rss, s.dep, hash))
  }

  ghost function Reported(s: State, hash: string): int {
    CurrentNew(s.rss, s.dep, hash).status.ready
  }

  ghost function OldTotal(s: State, hash: string): int {
    Total(OldSpecs(s.rss, s.dep, hash))
  }

  ghost predicate Alone(s: State, hash: string) {
    NoOlds(s.rss, s.dep, hash)
  }

  lemma MovedNumbers(s: State, moved: State, hash: string)
    requires SpecsSet(s) && Moves(s.rss, moved.rss, s.dep, hash) && SameSize(s, moved)
    ensures ReplicaSetKey(s.dep, hash) in moved.rss
    ensures NewSpec(moved, hash) == NextSpec(NewSpec(s, hash), Desired(s.dep), Alone(s, hash))
    ensures OldTotal(moved, hash) == Min(OldTotal(s, hash), Max(0, Desired(s.dep) - Reported(s, hash)))
    ensures Alone(moved, hash) <==> Alone(s, hash)
  {
    assert MovesAt(s.rss, moved.rss, s.dep, hash, ReplicaSetKey(s.dep, hash));
    SameOldSpecs(moved.rss, s.dep, moved.dep, hash);
    AloneIffNoOldSpecs(s, hash);
    AloneIffNoOldSpecs(moved, hash);
  }

  lemma AloneIffNoOldSpecs(s: State, hash: string)
    ensures Alone(s, hash) <==> OldSpecs(s.rss, s.dep, hash).Keys == {}
  {
    if OldSpecs(s.rss, s.dep, hash).Keys == {} {
      forall k | k in s.rss
        ensures !OldAt(s.rss, s.dep, hash, k)
      {
        assert k !in OldSpecs(s.rss, s.dep, hash).Keys;
      }
    }
  }

  lemma StatusesKeepNumbers(s: State, s': State, hash: string)
    requires OnlyStatusesChanged(s.rss, s'.rss) && s'.dep == s.dep && ReplicaSetKey(s.dep, hash) in s.rss
    ensures NewSpec(s', hash) == NewSpec(s, hash) && OldTotal(s', hash) == OldTotal(s, hash)
    ensures Alone(s', hash) <==> Alone(s, hash)
  {
    StatusesKeepOldSpecs(s.rss, s'.rss, s.dep, hash);
  }

  // The three numbers after a round, from the three numbers before it.
  lemma RoundNumbers(s: State, s': State, hash: string)
    requires SpecsSet(s) && RoundMoves(s, s', hash)
    ensures ReplicaSetKey(s.dep, hash) in s'.rss
    ensures NewSpec(s', hash) == NextSpec(NewSpec(s, hash), Desired(s.dep), Alone(s, hash))
    ensures OldTotal(s', hash) == Min(OldTotal(s, hash), Max(0, Desired(s.dep) - Reported(s, hash)))
    ensures Alone(s', hash) <==> Alone(s, hash)
  {
    var rss :| Moves(s.rss, rss, s.dep, hash) && OnlyStatusesChanged(rss, s'.rss);
    var moved := s'.(rss := rss);
    MovedNumbers(s, moved, hash);
    StatusesKeepNumbers(moved, s', hash);
  }

  lemma SettledReports(s: State, hashOf: PodSpec -> string)
    requires WellFormed(s, hashOf) && Settled(s) && NewKey(s, hashOf) in s.rss
    ensures NewSpec(s, Hash(s, hashOf)) <= Reported(s, Hash(s, hashOf))
  {
    NamesReserved(s, hashOf);
    assert OwnedAt(s.rss, s.dep, NewKey(s, hashOf));
    assert SettledAt(s, NewKey(s, hashOf));
  }

  lemma OldTotalNonNegative(s: State, hash: string)
    requires SpecsSet(s)
    ensures 0 <= OldTotal(s, hash)
    ensures OldTotal(s, hash) == 0 ==> forall k :: OldAt(s.rss, s.dep, hash, k) ==> SpecOf(s.rss[k]) == 0
    ensures Alone(s, hash) ==> OldTotal(s, hash) == 0
  {
    TotalNonNegative(OldSpecs(s.rss, s.dep, hash));
    forall k | OldAt(s.rss, s.dep, hash, k)
      ensures SpecOf(s.rss[k]) <= OldTotal(s, hash)
    {
      assert k in OldSpecs(s.rss, s.dep, hash);
    }
    if Alone(s, hash) {
      AloneIffNoOldSpecs(s, hash);
    }
  }

  // The numbers that decide how a rollout goes on.
  datatype Numbers = Numbers(desired: int, spec: int, reported: int, olds: int, alone: bool)

  ghost function NumbersOf(s: State, hash: string): Numbers {
    Numbers(Desired(s.dep), NewSpec(s, hash), Reported(s, hash), OldTotal(s, hash), Alone(s, hash))
  }

  // One round, in numbers.
  ghost predicate Advances(n: Numbers, n': Numbers) {
    && 0 <= n.desired == n'.desired && n.alone == n'.alone
    && 0 <= n.olds && 0 <= n'.olds && (n.alone ==> n.olds == n'.olds == 0)
    && n'.spec == NextSpec(n.spec, n.desired, n.alone)
    && n'.olds == Min(n.olds, Max(0, n.desired - n.reported))
    && n'.spec <= n'.reported
  }

  lemma RoundAdvances(s: State, s': State, hashOf: PodSpec -> string)
    requires WellFormed(s, hashOf) && SpecsSet(s) && Round(s, s', hashOf)
    ensures WellFormed(s', hashOf) && SpecsSet(s') && Settled(s')
    ensures SameSize(s, s') && NewKey(s', hashOf) in s'.rss
    ensures Advances(NumbersOf(s, Hash(s, hashOf)), NumbersOf(s', Hash(s, hashOf)))
  {
    RoundEffect(s, s', hashOf);
    NewKeySettled(s, s', hashOf);
    RoundInNumbers(s, s', Hash(s, hashOf));
  }

  lemma NewKeySettled(s: State, s': State, hashOf: PodSpec -> string)
    requires SpecsSet(s) && RoundMoves(s, s', Hash(s, hashOf)) && WellFormed(s', hashOf) && Settled(s')
    ensures NewKey(s', hashOf) in s'.rss && Hash(s', hashOf) == Hash(s, hashOf)
    ensures NewSpec(s', Hash(s, hashOf)) <= Reported(s', Hash(s, hashOf))
  {
    RoundNumbers(s, s', Hash(s, hashOf));
    SettledReports(s', hashOf);
  }

  lemma RoundInNumbers(s: State, s': State, hash: string)
    requires SpecsSet(s) && SpecsSet(s') && RoundMoves(s, s', hash)
    requires NewSpec(s', hash) <= Reported(s', hash)
    ensures Advances(NumbersOf(s, hash), NumbersOf(s', hash))
  {
    RoundNumbers(s, s', hash);
    OldTotalNonNegative(s, hash);
    OldTotalNonNegative(s', hash);
  }

  // The theorem ------------------------------------------------------------------------------------------

  ghost predicate Rounds(trace: seq<State>, hashOf: PodSpec -> string) {
    |trace| > 0 && forall i :: 0 <= i < |trace| - 1 ==> Round(trace[i], trace[i + 1], hashOf)
  }

  // The rollout is over: the new ReplicaSet asks for exactly the desired count, the old ones for nothing,
  // and every ReplicaSet has exactly the pods it asks for, all ready.
  ghost predicate Converged(s: State, hashOf: PodSpec -> string) {
    && NewKey(s, hashOf) in s.rss
    && NewSpec(s, Hash(s, hashOf)) == Desired(s.dep)
    && OldTotal(s, Hash(s, hashOf)) == 0
    && Settled(s)
  }

  function Distance(n: Numbers): int {
    n.desired - n.spec + n.olds
  }

  // While the new ReplicaSet reports at least what it asks for, every round shortens the distance to 0.
  lemma RoundShortensDistance(s: State, s': State, hashOf: PodSpec -> string)
    requires WellFormed(s, hashOf) && SpecsSet(s) && Round(s, s', hashOf)
    requires NewSpec(s, Hash(s, hashOf)) <= Desired(s.dep)
    requires NewSpec(s, Hash(s, hashOf)) <= Reported(s, Hash(s, hashOf))
    ensures var distance, distance' :=
              Distance(NumbersOf(s, Hash(s, hashOf))), Distance(NumbersOf(s', Hash(s, hashOf)));
      0 <= distance' && (distance' < distance || distance' == distance == 0)
  {
    RoundAdvances(s, s', hashOf);
    DistanceShortens(NumbersOf(s, Hash(s, hashOf)), NumbersOf(s', Hash(s, hashOf)));
  }

  lemma DistanceShortens(n: Numbers, n': Numbers)
    requires Advances(n, n') && n.spec <= n.desired && n.spec <= n.reported
    ensures 0 <= Distance(n') && (Distance(n') < Distance(n) || Distance(n') == Distance(n) == 0)
  {
  }

  // The number of rounds that a rollout takes.
  function RoundsNeeded(n: Numbers): int {
    if n.alone then 1
    else if n.spec == n.desired && n.reported < n.spec then 2
    else n.desired - n.spec + 1
  }

  // The new spec after i rounds: it climbs one by one, and never comes down while old ReplicaSets exist.
  function NewSpecAfter(n: Numbers, i: nat): int {
    if i == 0 then n.spec
    else if n.alone then n.desired
    else if n.spec < n.desired then Min(n.spec + i, n.desired)
    else n.spec
  }

  // What holds after i rounds.
  ghost predicate Progress(start: Numbers, n: Numbers, i: nat) {
    && n.desired == start.desired && n.alone == start.alone
    && (0 < i ==> n.spec <= n.reported)
    && n.spec == NewSpecAfter(start, i)
    && (RoundsNeeded(start) <= i && start.spec <= n.desired ==> n.olds == 0)
  }

  lemma NextProgress(start: Numbers, n: Numbers, n': Numbers, i: nat)
    requires Progress(start, n, i) && Advances(n, n')
    requires i == 0 ==> n == start
    ensures Progress(start, n', i + 1)
  {
  }

  lemma {:induction false} AfterRounds(trace: seq<State>, hashOf: PodSpec -> string, i: nat)
    requires Rounds(trace, hashOf) && i < |trace|
    requires WellFormed(trace[0], hashOf) && SpecsSet(trace[0])
    ensures WellFormed(trace[i], hashOf) && SpecsSet(trace[i])
    ensures Hash(trace[i], hashOf) == Hash(trace[0], hashOf)
    ensures 0 < i ==> Settled(trace[i]) && NewKey(trace[i], hashOf) in trace[i].rss
    ensures 0 < i ==>
      Progress(NumbersOf(trace[0], Hash(trace[0], hashOf)), NumbersOf(trace[i], Hash(trace[0], hashOf)), i)
  {
    if i > 0 {
      var hash := Hash(trace[0], hashOf);
      AfterRounds(trace, hashOf, i - 1);
      RoundAdvances(trace[i - 1], trace[i], hashOf);
      if i == 1 {
        FirstProgress(NumbersOf(trace[0], hash), NumbersOf(trace[1], hash));
      } else {
        NextProgress(NumbersOf(trace[0], hash), NumbersOf(trace[i - 1], hash), NumbersOf(trace[i], hash), i - 1);
      }
    }
  }

  lemma FirstProgress(start: Numbers, n: Numbers)
    requires Advances(start, n)
    ensures Progress(start, n, 1)
  {
  }

  // A rollout converges exactly when it does not have to shrink the new ReplicaSet next to old ones, and
  // then within RoundsNeeded rounds.  (Old ReplicaSets are never deleted by the controllers, so after a first
  // rollout a deployment that is scaled down stays at its old size.)
  lemma ConvergesIff(trace: seq<State>, hashOf: PodSpec -> string, i: nat)
    requires Rounds(trace, hashOf) && i < |trace|
    requires WellFormed(trace[0], hashOf) && SpecsSet(trace[0])
    requires 1 <= i && RoundsNeeded(NumbersOf(trace[0], Hash(trace[0], hashOf))) <= i
    ensures Converged(trace[i], hashOf) <==>
            || Alone(trace[0], Hash(trace[0], hashOf))
            || NewSpec(trace[0], Hash(trace[0], hashOf)) <= Desired(trace[0].dep)
  {
    AfterRounds(trace, hashOf, i);
    OldTotalNonNegative(trace[i], Hash(trace[0], hashOf));
  }

  // Converged states -------------------------------------------------------------------------------------

  lemma SettledReady(s: State, k: Key)
    requires SettledAt(s, k)
    ensures ReadyOf(s.pods, k) == ActiveOf(s.pods, k)
  {
  }

  lemma SettledPart(s: State, hashOf: PodSpec -> string, k: Key)
    requires WellFormed(s, hashOf) && OwnedAt(s.rss, s.dep, k) && SettledAt(s, k)
    ensures |Part(ReadyPods(s), k)| == SpecOf(s.rss[k])
  {
    ReadyPart(s, hashOf, k);
    SettledReady(s, k);
  }

  // In a settled state the deployment has exactly as many ready pods as its ReplicaSets ask for.
  lemma SettledCount(s: State, hashOf: PodSpec -> string)
    requires WellFormed(s, hashOf) && Settled(s)
    ensures |ReadyPods(s)| == Total(OwnedSpecs(s))
  {
    var owner, ks := ReadyPods(s), Availability.OwnedKeys(s);
    forall k | k in ks
      ensures |Part(owner, k)| == SpecOf(s.rss[k])
    {
      assert OwnedAt(s.rss, s.dep, k);
      SettledPart(s, hashOf, k);
    }
    SizesAre(owner, ks, OwnedSpecs(s));
    CountByOwner(owner, ks);
  }

  lemma SizesAre(owner: map<Key, Key>, ks: set<Key>, sizes: map<Key, int>)
    requires sizes.Keys == ks && forall k :: k in ks ==> |Part(owner, k)| == sizes[k]
    ensures Sizes(owner, ks) == sizes
  {
  }

  lemma SplitSpecs(s: State, hashOf: PodSpec -> string)
    requires WellFormed(s, hashOf) && NewKey(s, hashOf) in s.rss
    ensures Total(OwnedSpecs(s)) == OldTotal(s, Hash(s, hashOf)) + NewSpec(s, Hash(s, hashOf))
  {
    NamesReserved(s, hashOf);
    OwnedSpecsSplit(s, Hash(s, hashOf));
  }

  // A converged rollout has exactly the desired number of ready pods, all of the new ReplicaSet.
  lemma ConvergedExactly(s: State, hashOf: PodSpec -> string)
    requires WellFormed(s, hashOf) && SpecsSet(s) && Converged(s, hashOf)
    ensures |ReadyPods(s)| == Desired(s.dep)
    ensures |ReadyOf(s.pods, NewKey(s, hashOf))| == Desired(s.dep)
    ensures forall k :: OldAt(s.rss, s.dep, Hash(s, hashOf), k) ==> ActiveOf(s.pods, k) == {}
  {
    SettledCount(s, hashOf);
    SplitSpecs(s, hashOf);
    NamesReserved(s, hashOf);
    assert SettledAt(s, NewKey(s, hashOf));
    SettledReady(s, NewKey(s, hashOf));
    OldTotalNonNegative(s, Hash(s, hashOf));
    forall k | OldAt(s.rss, s.dep, Hash(s, hashOf), k)
      ensures ActiveOf(s.pods, k) == {}
    {
      assert SettledAt(s, k);
    }
  }

  // Once converged, no deployment reconcile changes any replica count again.
  lemma ConvergedIsStable(s: State, s': State, hashOf: PodSpec -> string, k: Key)
    requires WellFormed(s, hashOf) && SpecsSet(s) && Converged(s, hashOf) && DeploymentTick(s, s', hashOf)
    requires k in s.rss
    ensures k in s'.rss && SpecOf(s'.rss[k]) == SpecOf(s.rss[k])
    ensures s'.rss.Keys == s.rss.Keys
  {
    var hash := Hash(s, hashOf);
    DeploymentTickMoves(s, s', hashOf);
    OldTotalNonNegative(s, hash);
    assert MovesAt(s.rss, s'.rss, s.dep, hash, k);
    forall j
      ensures j in s'.rss <==> j in s.rss
    {
      assert MovesAt(s.rss, s'.rss, s.dep, hash, j);
    }
  }

  lemma RoundSpecsBounded(s: State, s': State, hashOf: PodSpec -> string)
    requires Bounded(s, hashOf) && RoundMoves(s, s', Hash(s, hashOf))
    ensures Total(OwnedSpecs(s')) <= 2 * Desired(s.dep)
  {
    var rss :| Moves(s.rss, rss, s.dep, Hash(s, hashOf)) && OnlyStatusesChanged(rss, s'.rss);
    var moved := s'.(rss := rss);
    MovesBounded(s, moved, hashOf);
    StatusesKeepSpecs(moved, s');
  }

  lemma StatusesKeepSpecs(s: State, s': State)
    requires OnlyStatusesChanged(s.rss, s'.rss) && s'.dep == s.dep
    ensures OwnedSpecs(s') == OwnedSpecs(s)
  {
  }

  // The deployment's pods that have not ended.
  ghost predicate RunsForDeployment(s: State, p: Key) {
    && p in s.pods && s.pods[p].owner.ReplicaSetOwner? && s.pods[p].key.ns == s.dep.key.ns
    && s.pods[p].Active() && OwnedAt(s.rss, s.dep, OwnerKey(s, s.pods[p]))
  }

  ghost function ActivePods(s: State): set<Key> {
    set p | p in s.pods && RunsForDeployment(s, p)
  }

  lemma SettledActive(s: State)
    requires KeyedPods(s.pods) && Settled(s)
    ensures ActivePods(s) == ReadyPods(s).Keys
  {
    forall p | p in ActivePods(s)
      ensures p in ReadyPods(s)
    {
      var k := OwnerKey(s, s.pods[p]);
      assert SettledAt(s, k);
      assert p in ActiveOf(s.pods, k);
    }
  }

  // After any round, also in the middle of a rollout, a deployment within its surge bound runs at most
  // twice the desired number of pods, and all of them are ready.
  lemma RoundBoundsPods(s: State, s': State, hashOf: PodSpec -> string)
    requires Bounded(s, hashOf) && Round(s, s', hashOf)
    ensures |ActivePods(s')| <= 2 * Desired(s.dep) && ActivePods(s') == ReadyPods(s').Keys
  {
    assert SpecsSet(s);
    RoundEffect(s, s', hashOf);
    RoundSpecsBounded(s, s', hashOf);
    SettledCount(s', hashOf);
    SettledActive(s');
  }
}
