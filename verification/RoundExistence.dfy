// Rounds exist: from every well-formed state the two controllers can do another round, so what is proved of all
// traces of rounds is proved of something.
module RoundExistence {
  import opened ApiTypes
  import opened Totals
  import opened ControllerStore
  import opened DeploymentController
  import opened DeploymentEffect
  import opened ReplicaSetController
  import opened ReplicaSetEffect
  import opened Rollout
  import opened Convergence

  lemma {:induction false} ListingExists(rss: map<Key, ReplicaSet>, ns: string) returns (list: seq<ReplicaSet>)
    requires KeyedReplicaSets(rss)
    ensures IsListing(list, rss, ns)
    decreases |rss.Keys|
  {
    if |rss.Keys| == 0 {
      list := [];
    } else {
      var k :| k in rss;
      assert (rss - {k}).Keys == rss.Keys - {k};
      list := ListingExists(rss - {k}, ns);
      ListOneMore(list, rss, ns, {k}, k);
      list := if InNamespace(k, ns) then list + [rss[k]] else list;
      assert rss - ({k} - {k}) == rss;
    }
  }

  // New names --------------------------------------------------------------------------------------------

  lemma {:induction false} LongerThanAll(keys: set<Key>) returns (bound: nat)
    ensures forall k :: k in keys ==> |k.name| < bound
    decreases |keys|
  {
    if |keys| == 0 {
      bound := 0;
    } else {
      var k :| k in keys;
      bound := LongerThanAll(keys - {k});
      bound := if bound <= |k.name| then |k.name| + 1 else bound;
    }
  }

  lemma {:induction false} FreshKeys(keys: set<Key>, rsKey: Key, n: nat) returns (added: set<Key>)
    ensures |added| == n
    ensures forall k :: k in added ==> k !in keys && k.ns == rsKey.ns && rsKey.name + "-" <= k.name
  {
    added := {};
    if n > 0 {
      added := FreshKeys(keys, rsKey, n - 1);
      var bound := LongerThanAll(keys + added);
      var k := Key(rsKey.ns, rsKey.name + "-" + seq(bound, i => 'x'));
      assert k !in keys + added;
      added := added + {k};
    }
  }

  lemma {:induction false} PartOfSize(all: set<Key>, n: nat) returns (part: set<Key>)
    requires n <= |all|
    ensures part <= all && |part| == n
  {
    part := {};
    if n > 0 {
      var k :| k in all;
      part := PartOfSize(all - {k}, n - 1);
      part := part + {k};
    }
  }

  // One ReplicaSet reconcile -----------------------------------------------------------------------------

  function ReadyPod(p: Key, rs: ReplicaSet): Pod {
    Pod(p, "u", rs.template.labels, ReplicaSetOwner(rs.key.name), rs.template.portAnnotation, rs.template.spec,
        PodStatus(Running, [true], 0))
  }

  ghost predicate PodsStartWell(pods: map<Key, Pod>, pods': map<Key, Pod>) {
    NewPodsActive(pods, pods') && NewPodsReady(pods, pods')
  }

  lemma LaunchPossible(pods: map<Key, Pod>, rs: ReplicaSet) returns (pods': map<Key, Pod>)
    requires |ActiveOf(pods, rs.key)| < Wanted(rs)
    ensures AdjustsPods(pods, pods', rs, Completed) && PodsStartWell(pods, pods')
  {
    var n := Wanted(rs) - |ActiveOf(pods, rs.key)|;
    var added := FreshKeys(pods.Keys, rs.key, n);
    pods' := pods + map p | p in added :: ReadyPod(p, rs);
    assert Launches(pods, pods', rs, added);
  }

  lemma DeletePossible(pods: map<Key, Pod>, rs: ReplicaSet) returns (pods': map<Key, Pod>)
    requires 0 <= Wanted(rs) <= |ActiveOf(pods, rs.key)|
    ensures AdjustsPods(pods, pods', rs, Completed) && PodsStartWell(pods, pods')
  {
    var gone := PartOfSize(ActiveOf(pods, rs.key), |ActiveOf(pods, rs.key)| - Wanted(rs));
    pods' := pods - gone;
    assert Deletes(pods, pods', rs, gone);
  }

  lemma TickExists(s: State, k: Key) returns (s': State)
    requires Sound(s) && SpecsSet(s) && k in s.rss
    ensures SweepTick(s, s', k)
  {
    var rs := s.rss[k];
    if Wanted(rs) < 0 {
      s' := s.(pods := s.pods - ActiveOf(s.pods, rs.key));
      assert ReplicaSetTick(s, s', k, IndexPanic);
    } else {
      var pods';
      if |ActiveOf(s.pods, rs.key)| < Wanted(rs) {
        pods' := LaunchPossible(s.pods, rs);
      } else {
        pods' := DeletePossible(s.pods, rs);
      }
      s' := State(s.dep, s.rss[k := rs.(status := NextStatus(s.pods, pods', rs))], pods');
      assert ReplicaSetTick(s, s', k, Completed);
    }
  }

  lemma StatusesKeepSpecsSet(s: State, s': State)
    requires SpecsSet(s) && s'.dep == s.dep && OnlyStatusesChanged(s.rss, s'.rss)
    ensures SpecsSet(s')
  {
    forall k | OwnedAt(s'.rss, s'.dep, k)
      ensures s'.rss[k].replicas.Some? && 0 <= SpecOf(s'.rss[k])
    {
      StatusesKeepOwned(s.rss, s'.rss, s.dep, k);
    }
  }

  // Sweeps and rounds ------------------------------------------------------------------------------------

  lemma {:induction false} SweepExists(s: State, keys: set<Key>) returns (order: seq<Key>, s': State)
    requires Sound(s) && SpecsSet(s) && keys <= s.rss.Keys
    ensures Sweep(s, order, s')
    ensures forall k :: k in order <==> k in keys
    decreases |keys|
  {
    if |keys| == 0 {
      order, s' := [], s;
    } else {
      var k :| k in keys;
      var m := TickExists(s, k);
      SweepTickSound(s, m, k);
      StatusesKeepSpecsSet(s, m);
      var rest, last := SweepExists(m, keys - {k});
      SweepFirst(s, m, k, rest, last);
      order, s' := [k] + rest, last;
    }
  }

  lemma SweepFirst(s: State, m: State, k: Key, rest: seq<Key>, s': State)
    requires SweepTick(s, m, k) && Sweep(m, rest, s') && k !in rest
    ensures Sweep(s, [k] + rest, s')
  {
    assert ([k] + rest)[1..] == rest;
  }

  function AllReady(pods: map<Key, Pod>): map<Key, Pod> {
    map p | p in pods :: pods[p].(status := pods[p].status.(containersReady := [true]))
  }

  lemma TickKeepsSpecsSet(s: State, s': State, hashOf: PodSpec -> string)
    requires WellFormed(s, hashOf) && SpecsSet(s) && DeploymentTick(s, s', hashOf)
    ensures WellFormed(s', hashOf) && SpecsSet(s')
  {
    DeploymentTickWellFormed(s, s', hashOf);
    DeploymentTickMoves(s, s', hashOf);
    forall k | OwnedAt(s'.rss, s'.dep, k)
      ensures s'.rss[k].replicas.Some? && 0 <= SpecOf(s'.rss[k])
    {
      MovedSpecsSet(s, s'.rss, Hash(s, hashOf), k);
    }
  }

  lemma ReconcileExists(s: State, hashOf: PodSpec -> string) returns (s': State)
    requires WellFormed(s, hashOf) && SpecsSet(s)
    ensures DeploymentTick(s, s', hashOf) && WellFormed(s', hashOf) && SpecsSet(s')
  {
    var list := ListingExists(s.rss, s.dep.key.ns);
    s' := s.(rss := Reconciled(s.rss, s.dep, Hash(s, hashOf), list));
    assert DeploymentTick(s, s', hashOf);
    TickKeepsSpecsSet(s, s', hashOf);
  }

  // From every well-formed state there is another round.
  lemma RoundExists(s: State, hashOf: PodSpec -> string) returns (s': State)
    requires WellFormed(s, hashOf) && SpecsSet(s)
    ensures Round(s, s', hashOf)
  {
    var reconciled := ReconcileExists(s, hashOf);
    var ready := reconciled.(pods := AllReady(reconciled.pods));
    assert PodsBecomeReady(reconciled, ready);
    var order;
    order, s' := SweepExists(ready, ready.rss.Keys);
    assert RoundVia(s, reconciled, ready, order, s', hashOf);
  }

  lemma StaysWellFormed(trace: seq<State>, hashOf: PodSpec -> string, i: nat)
    requires Rounds(trace, hashOf) && i < |trace|
    requires WellFormed(trace[0], hashOf) && SpecsSet(trace[0])
    ensures WellFormed(trace[i], hashOf) && SpecsSet(trace[i])
  {
    AfterRounds(trace, hashOf, i);
  }

  lemma OneMoreRound(trace: seq<State>, next: State, hashOf: PodSpec -> string)
    requires Rounds(trace, hashOf) && Round(trace[|trace| - 1], next, hashOf)
    ensures Rounds(trace + [next], hashOf)
  {
    var more := trace + [next];
    forall i | 0 <= i < |more| - 1
      ensures Round(more[i], more[i + 1], hashOf)
    {
      if i < |trace| - 1 {
        assert Round(trace[i], trace[i + 1], hashOf);
      }
    }
  }

  lemma {:induction false} RoundsExist(s: State, hashOf: PodSpec -> string, n: nat) returns (trace: seq<State>)
    requires WellFormed(s, hashOf) && SpecsSet(s)
    ensures |trace| == n + 1 && trace[0] == s && Rounds(trace, hashOf)
  {
    if n == 0 {
      trace := [s];
    } else {
      trace := RoundsExist(s, hashOf, n - 1);
      StaysWellFormed(trace, hashOf, n - 1);
      var next := RoundExists(trace[n - 1], hashOf);
      OneMoreRound(trace, next, hashOf);
      trace := trace + [next];
    }
  }

  ghost predicate ConvergesFrom(s: State, hashOf: PodSpec -> string) {
    exists trace :: Rounds(trace, hashOf) && trace[0] == s && Converged(trace[|trace| - 1], hashOf)
  }

  // Some sequence of rounds brings a rollout to its end exactly when the new ReplicaSet does not have to shrink
  // beside old ones; no sequence of any length does otherwise.
  lemma CanConvergeIff(s: State, hashOf: PodSpec -> string)
    requires WellFormed(s, hashOf) && SpecsSet(s)
    ensures ConvergesFrom(s, hashOf) <==> Alone(s, Hash(s, hashOf)) || NewSpec(s, Hash(s, hashOf)) <= Desired(s.dep)
  {
    if Alone(s, Hash(s, hashOf)) || NewSpec(s, Hash(s, hashOf)) <= Desired(s.dep) {
      var n := Max(1, RoundsNeeded(NumbersOf(s, Hash(s, hashOf))));
      var trace := RoundsExist(s, hashOf, n);
      ConvergesIff(trace, hashOf, n);
    } else if ConvergesFrom(s, hashOf) {
      var trace :| Rounds(trace, hashOf) && trace[0] == s && Converged(trace[|trace| - 1], hashOf);
      Stuck(trace, hashOf, |trace| - 1);
    }
  }

  lemma Stuck(trace: seq<State>, hashOf: PodSpec -> string, i: nat)
    requires Rounds(trace, hashOf) && i < |trace|
    requires WellFormed(trace[0], hashOf) && SpecsSet(trace[0])
    requires !Alone(trace[0], Hash(trace[0], hashOf))
    requires NewSpec(trace[0], Hash(trace[0], hashOf)) > Desired(trace[0].dep)
    ensures Hash(trace[i], hashOf) == Hash(trace[0], hashOf)
    ensures NewSpec(trace[i], Hash(trace[0], hashOf)) == NewSpec(trace[0], Hash(trace[0], hashOf))
    ensures Desired(trace[i].dep) == Desired(trace[0].dep) && !Converged(trace[i], hashOf)
  {
    AfterRounds(trace, hashOf, i);
  }

  // A deployment scaled down after its first rollout: the new ReplicaSet has one replica too many, and an old one
  // is still there.
  function ScaledDown(dep: Deployment, hashOf: PodSpec -> string): State {
    var hash := hashOf(dep.template.spec);
    var newRS := NewReplicaSet(dep, hash, Desired(dep) + 1);
    var oldRS := NewReplicaSet(dep, hash + "-", 0);
    State(dep, map[newRS.key := newRS, oldRS.key := oldRS], map[])
  }

  lemma ScaledDownWellFormed(dep: Deployment, hashOf: PodSpec -> string)
    requires dep.key.ns != "" && HASH_LABEL !in dep.selector && 0 <= Desired(dep)
    ensures var s := ScaledDown(dep, hashOf);
      && WellFormed(s, hashOf) && SpecsSet(s)
      && NewSpec(s, Hash(s, hashOf)) == Desired(dep) + 1 && !Alone(s, Hash(s, hashOf))
  {
    var s, hash := ScaledDown(dep, hashOf), hashOf(dep.template.spec);
    var nk, ok := ReplicaSetKey(dep, hash), ReplicaSetKey(dep, hash + "-");
    assert |hash + "-"| == |hash| + 1;
    if nk == ok {
      SameKeySameHash(dep, hash, hash + "-");
    }
    assert OldAt(s.rss, dep, hash, ok);
    forall spec | ReplicaSetKey(dep, hashOf(spec)) in s.rss
      ensures OwnedAt(s.rss, dep, ReplicaSetKey(dep, hashOf(spec)))
      ensures HasHash(s.rss[ReplicaSetKey(dep, hashOf(spec))], hashOf(spec))
    {
      if ReplicaSetKey(dep, hashOf(spec)) == nk {
        SameKeySameHash(dep, hashOf(spec), hash);
      } else {
        SameKeySameHash(dep, hashOf(spec), hash + "-");
      }
    }
  }

  // However many rounds follow, it keeps asking for one replica too many, and from the first on it has them ready.
  lemma ScaleDownHasNoEffect(dep: Deployment, hashOf: PodSpec -> string, n: nat) returns (trace: seq<State>)
    requires dep.key.ns != "" && HASH_LABEL !in dep.selector && 0 <= Desired(dep)
    ensures Rounds(trace, hashOf) && |trace| == n + 1 && trace[0] == ScaledDown(dep, hashOf)
    ensures Hash(trace[n], hashOf) == Hash(trace[0], hashOf)
    ensures NewSpec(trace[n], Hash(trace[0], hashOf)) == Desired(dep) + 1 && !Converged(trace[n], hashOf)
    ensures n > 0 ==> |ReadyOf(trace[n].pods, NewKey(trace[n], hashOf))| == Desired(dep) + 1
  {
    ScaledDownWellFormed(dep, hashOf);
    trace := RoundsExist(ScaledDown(dep, hashOf), hashOf, n);
    Stuck(trace, hashOf, n);
    if n > 0 {
      AfterRounds(trace, hashOf, n);
      var s := trace[n];
      NamesReserved(s, hashOf);
      assert SettledAt(s, NewKey(s, hashOf));
      SettledReady(s, NewKey(s, hashOf));
    }
  }

  function WithDesired(s: State, d: int): State {
    s.(dep := s.dep.(replicas := Some(d)))
  }

  function WithTemplate(s: State, template: PodTemplate): State {
    s.(dep := s.dep.(template := template))
  }

  // The same from any converged rollout with an old ReplicaSet: lowering the desired count changes nothing, through
  // any number of rounds.
  lemma LoweredHasNoEffect(s: State, d: int, hashOf: PodSpec -> string, n: nat) returns (trace: seq<State>)
    requires WellFormed(s, hashOf) && SpecsSet(s) && Converged(s, hashOf) && !Alone(s, Hash(s, hashOf))
    requires 0 <= d < Desired(s.dep)
    ensures Rounds(trace, hashOf) && |trace| == n + 1 && trace[0] == WithDesired(s, d)
    ensures Desired(trace[n].dep) == d && Hash(trace[n], hashOf) == Hash(s, hashOf)
    ensures NewSpec(trace[n], Hash(s, hashOf)) == Desired(s.dep) && !Converged(trace[n], hashOf)
    ensures n > 0 ==> |ReadyOf(trace[n].pods, NewKey(trace[n], hashOf))| == Desired(s.dep)
  {
    var lowered := WithDesired(s, d);
    LoweredStart(s, d, hashOf);
    trace := RoundsExist(lowered, hashOf, n);
    Stuck(trace, hashOf, n);
    if n > 0 {
      AfterRounds(trace, hashOf, n);
      NamesReserved(trace[n], hashOf);
      assert SettledAt(trace[n], NewKey(trace[n], hashOf));
      SettledReady(trace[n], NewKey(trace[n], hashOf));
    }
  }

  lemma LoweredStart(s: State, d: int, hashOf: PodSpec -> string)
    requires WellFormed(s, hashOf) && SpecsSet(s) && Converged(s, hashOf) && !Alone(s, Hash(s, hashOf)) && 0 <= d
    ensures var lowered := WithDesired(s, d);
      && WellFormed(lowered, hashOf) && SpecsSet(lowered) && Hash(lowered, hashOf) == Hash(s, hashOf)
      && !Alone(lowered, Hash(s, hashOf)) && NewSpec(lowered, Hash(s, hashOf)) == Desired(s.dep)
  {
    var lowered, hash := WithDesired(s, d), Hash(s, hashOf);
    OtherDeployment(s.rss, s.dep, lowered.dep, hashOf);
    forall k | OwnedAt(lowered.rss, lowered.dep, k)
      ensures lowered.rss[k].replicas.Some? && 0 <= SpecOf(lowered.rss[k])
    {
      assert OwnedAt(s.rss, s.dep, k);
    }
    var k :| k in s.rss && OldAt(s.rss, s.dep, hash, k);
    assert OldAt(lowered.rss, lowered.dep, hash, k);
  }

  // Such states are reached from nothing: a first rollout, an edit of the template, and a second rollout.
  lemma ReachesConvergedWithOld(dep: Deployment, template: PodTemplate, hashOf: PodSpec -> string)
    returns (first: seq<State>, second: seq<State>)
    requires dep.key.ns != "" && HASH_LABEL !in dep.selector && 0 <= Desired(dep)
    requires hashOf(template.spec) != hashOf(dep.template.spec)
    ensures Rounds(first, hashOf) && first[0] == State(dep, map[], map[])
    ensures Rounds(second, hashOf) && second[0] == WithTemplate(first[|first| - 1], template)
    ensures var s := second[|second| - 1];
      && WellFormed(s, hashOf) && SpecsSet(s) && Converged(s, hashOf) && !Alone(s, Hash(s, hashOf))
      && Desired(s.dep) == Desired(dep)
  {
    first := RoundsExist(State(dep, map[], map[]), hashOf, 1);
    FirstRollout(first[0], first[1], hashOf);
    var edited := WithTemplate(first[1], template);
    EditedStart(first[0], first[1], template, hashOf);
    var n := Max(1, RoundsNeeded(NumbersOf(edited, Hash(edited, hashOf))));
    second := RoundsExist(edited, hashOf, n);
    ConvergesIff(second, hashOf, n);
    AfterRounds(second, hashOf, n);
  }

  lemma FirstRollout(s: State, s': State, hashOf: PodSpec -> string)
    requires s.rss == map[] && WellFormed(s, hashOf) && SpecsSet(s) && Round(s, s', hashOf)
    ensures s'.rss.Keys == {NewKey(s, hashOf)} && s'.dep == s.dep.(status := s'.dep.status)
    ensures WellFormed(s', hashOf) && SpecsSet(s') && OwnedAt(s'.rss, s'.dep, NewKey(s, hashOf))
  {
    RoundEffect(s, s', hashOf);
    OnlyNewKey(s, s', Hash(s, hashOf));
    NamesReserved(s', hashOf);
  }

  lemma OnlyNewKey(s: State, s': State, hash: string)
    requires s.rss == map[] && RoundMoves(s, s', hash)
    ensures s'.rss.Keys == {ReplicaSetKey(s.dep, hash)}
  {
    var moved :| Moves(s.rss, moved, s.dep, hash) && OnlyStatusesChanged(moved, s'.rss);
    forall k
      ensures k in moved <==> k == ReplicaSetKey(s.dep, hash)
    {
      assert MovesAt(s.rss, moved, s.dep, hash, k);
    }
  }

  lemma EditedStart(s: State, s': State, template: PodTemplate, hashOf: PodSpec -> string)
    requires WellFormed(s', hashOf) && SpecsSet(s') && s'.dep == s.dep.(status := s'.dep.status)
    requires s'.rss.Keys == {NewKey(s, hashOf)} && OwnedAt(s'.rss, s'.dep, NewKey(s, hashOf))
    requires hashOf(template.spec) != Hash(s, hashOf)
    ensures var edited := WithTemplate(s', template);
      && WellFormed(edited, hashOf) && SpecsSet(edited) && Desired(edited.dep) == Desired(s.dep)
      && !Alone(edited, Hash(edited, hashOf)) && NewSpec(edited, Hash(edited, hashOf)) <= Desired(edited.dep)
  {
    var edited, nk := WithTemplate(s', template), NewKey(s, hashOf);
    OtherDeployment(s'.rss, s'.dep, edited.dep, hashOf);
    if NewKey(edited, hashOf) == nk {
      SameKeySameHash(s.dep, Hash(edited, hashOf), Hash(s, hashOf));
    }
    assert nk == ReplicaSetKey(s'.dep, s'.rss[nk].labels[HASH_LABEL]);
    SameKeySameHash(s.dep, s'.rss[nk].labels[HASH_LABEL], Hash(s, hashOf));
    assert OldAt(edited.rss, edited.dep, Hash(edited, hashOf), nk);
    forall k | OwnedAt(edited.rss, edited.dep, k)
      ensures edited.rss[k].replicas.Some? && 0 <= SpecOf(edited.rss[k])
    {
      assert OwnedAt(s'.rss, s'.dep, k);
    }
  }
}
