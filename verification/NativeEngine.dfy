// The process table of the native engine (engine/native.go).
module NativeEngine {
  import opened ApiTypes

  // An entry of the table: what it reports, and which process it was made for.
  datatype Proc = Proc(phase: Phase, pid: nat)

  // procs is the table.  running has the pod name of every process whose end has not been recorded yet,
  // outcomes tells how the others ended, and stopped are those that were told to stop.
  datatype Engine = Engine(
    procs: map<string, Proc>, running: map<nat, string>, outcomes: map<nat, bool>, stopped: set<nat>, nextPid: nat)

  const EMPTY := Engine(map[], map[], map[], {}, 0)

  // ok says that the executable is found and starts.
  datatype Step = Start(name: string, ok: bool) | Exit(pid: nat, success: bool) | Stop(name: string)

  function EndPhase(success: bool): Phase {
    if success then Succeeded else Failed
  }

  function Store(e: Engine, name: string): Engine {
    e.(procs := e.procs[name := Proc(Running, e.nextPid)], running := e.running[e.nextPid := name],
       nextPid := e.nextPid + 1)
  }

  predicate Refused(e: Engine, name: string) {
    name in e.procs && e.procs[name].phase == Running
  }

  // The end of a process is written onto the entry that its name has at that time.
  function Ended(e: Engine, pid: nat, success: bool): Engine
    requires pid in e.running
  {
    var name := e.running[pid];
    e.(running := e.running - {pid},
       outcomes := e.outcomes[pid := success],
       procs := if name in e.procs then e.procs[name := e.procs[name].(phase := EndPhase(success))] else e.procs)
  }

  function Next(e: Engine, step: Step): Engine {
    match step
    case Start(name, ok) => if !ok || Refused(e, name) then e else Store(e, name)
    case Exit(pid, success) => if pid in e.running then Ended(e, pid, success) else e
    case Stop(name) => if name in e.procs then e.(stopped := e.stopped + {e.procs[name].pid}) else e
  }

  function After(e: Engine, steps: seq<Step>): Engine
    decreases |steps|
  {
    if steps == [] then e else After(Next(e, steps[0]), steps[1..])
  }

  class NativeEngine {
    var procs: map<string, Proc>
    ghost var running: map<nat, string>
    ghost var outcomes: map<nat, bool>
    var stopped: set<nat>
    var nextPid: nat

    ghost function Value(): Engine
      reads this
    {
      Engine(procs, running, outcomes, stopped, nextPid)
    }

    constructor ()
      ensures Value() == EMPTY
    {
      procs, running, outcomes, stopped, nextPid := map[], map[], map[], {}, 0;
    }

    method Start(name: string, found: bool, starts: bool) returns (ok: bool)
      modifies this
      ensures Value() == Next(old(Value()), Step.Start(name, found && starts))
      ensures ok == (found && starts && !Refused(old(Value()), name))
    {
      if !found {
        return false;
      }
      if name in procs {
        if procs[name].phase == Running {
          return false;
        }
      }
      if !starts {
        return false;
      }
      procs := procs[name := Proc(Running, nextPid)];
      running := running[nextPid := name];
      nextPid := nextPid + 1;
      return true;
    }

    // What the goroutine that waits for a process does once it has ended.
    method Waited(name: string, ghost pid: nat, success: bool)
      requires pid in running && running[pid] == name
      modifies this
      ensures Value() == Ended(old(Value()), pid, success)
    {
      if name in procs {
        procs := procs[name := procs[name].(phase := if success then Succeeded else Failed)];
      }
      running := running - {pid};
      outcomes := outcomes[pid := success];
    }

    method Stop(name: string) returns (ok: bool)
      modifies this
      ensures Value() == Next(old(Value()), Step.Stop(name)) && ok == (name in procs)
    {
      if name !in procs {
        return false;
      }
      stopped := stopped + {procs[name].pid};
      return true;
    }

    method Status(name: string) returns (phase: Phase)
      ensures phase == if name in procs then procs[name].phase else Pending
    {
      if name in procs {
        return procs[name].phase;
      }
      return Pending;
    }
  }

  // Running processes are exactly the entries that say so, and every other entry tells how its own process ended.
  ghost predicate Faithful(e: Engine) {
    && (forall pid :: pid in e.running ==> RunningAt(e, pid))
    && (forall name :: name in e.procs ==> EntryAt(e, name))
    && (forall pid :: pid in e.outcomes ==> pid < e.nextPid && pid !in e.running)
  }

  predicate RunningAt(e: Engine, pid: nat)
    requires pid in e.running
  {
    pid < e.nextPid && e.running[pid] in e.procs && e.procs[e.running[pid]] == Proc(Running, pid)
  }

  predicate EntryAt(e: Engine, name: string)
    requires name in e.procs
  {
    var p := e.procs[name];
    && p.pid < e.nextPid
    && if p.phase == Running then p.pid in e.running && e.running[p.pid] == name
       else p.pid in e.outcomes && p.phase == if e.outcomes[p.pid] then Succeeded else Failed
  }

  lemma StartFaithful(e: Engine, name: string)
    requires Faithful(e) && !Refused(e, name)
    ensures Faithful(Store(e, name))
  {
    var e' := Store(e, name);
    forall pid | pid in e'.running
      ensures RunningAt(e', pid)
    {
      if pid in e.running {
        assert RunningAt(e, pid);
      }
    }
    forall other | other in e'.procs
      ensures EntryAt(e', other)
    {
      if other in e.procs {
        assert EntryAt(e, other);
      }
    }
    assert forall pid :: pid in e.running ==> RunningAt(e, pid);
  }

  lemma ExitFaithful(e: Engine, pid: nat, success: bool)
    requires Faithful(e) && pid in e.running
    ensures Faithful(Ended(e, pid, success))
  {
    var e' := Ended(e, pid, success);
    assert RunningAt(e, pid);
    forall other | other in e'.running
      ensures RunningAt(e', other)
    {
      assert RunningAt(e, other);
    }
    forall name | name in e'.procs
      ensures EntryAt(e', name)
    {
      assert EntryAt(e, name);
    }
  }

  lemma StopFaithful(e: Engine, stopped: set<nat>)
    requires Faithful(e)
    ensures Faithful(e.(stopped := stopped))
  {
    var e' := e.(stopped := stopped);
    assert forall pid :: pid in e.running && RunningAt(e, pid) ==> RunningAt(e', pid);
    assert forall name :: name in e.procs && EntryAt(e, name) ==> EntryAt(e', name);
  }

  lemma StepFaithful(e: Engine, step: Step)
    requires Faithful(e)
    ensures Faithful(Next(e, step))
  {
    match step
    case Start(name, ok) =>
      if ok && !Refused(e, name) {
        StartFaithful(e, name);
      }
    case Exit(pid, success) =>
      if pid in e.running {
        ExitFaithful(e, pid, success);
      }
    case Stop(name) =>
      if name in e.procs {
        StopFaithful(e, e.stopped + {e.procs[name].pid});
      }
  }

  lemma {:induction false} RunFaithful(e: Engine, steps: seq<Step>)
    requires Faithful(e)
    ensures Faithful(After(e, steps))
    decreases |steps|
  {
    if steps != [] {
      StepFaithful(e, steps[0]);
      RunFaithful(Next(e, steps[0]), steps[1..]);
    }
  }

  // After any run no two running processes have the same pod name, a name has one exactly when its entry says
  // Running, and an entry that says anything else tells how the last process of that name ended.
  lemma OneProcessPerName(steps: seq<Step>, pid: nat, other: nat, name: string)
    ensures var e := After(EMPTY, steps);
      && (pid in e.running && other in e.running && e.running[pid] == e.running[other] ==> pid == other)
      && (Refused(e, name) <==> exists p :: p in e.running && e.running[p] == name)
      && (name in e.procs && !Refused(e, name) ==>
            && e.procs[name].pid in e.outcomes
            && e.procs[name].phase == if e.outcomes[e.procs[name].pid] then Succeeded else Failed)
  {
    RunFaithful(EMPTY, steps);
    var e := After(EMPTY, steps);
    if pid in e.running && other in e.running {
      assert RunningAt(e, pid) && RunningAt(e, other);
    }
    if name in e.procs {
      assert EntryAt(e, name);
    }
    forall p | p in e.running && e.running[p] == name
      ensures Refused(e, name)
    {
      assert RunningAt(e, p);
    }
  }

  // The end of a process is written onto its own entry; every other entry stays.
  lemma ExitWritesOwnEntry(steps: seq<Step>, pid: nat, success: bool)
    requires pid in After(EMPTY, steps).running
    ensures var e := After(EMPTY, steps);
      var name := e.running[pid];
      && name in e.procs && e.procs[name].pid == pid
      && Ended(e, pid, success).procs == e.procs[name := Proc(if success then Succeeded else Failed, pid)]
  {
    RunFaithful(EMPTY, steps);
    assert RunningAt(After(EMPTY, steps), pid);
  }

  // A stop reaches the running process of that name, if there is one.
  lemma StopReaches(steps: seq<Step>, pid: nat)
    requires pid in After(EMPTY, steps).running
    ensures var e := After(EMPTY, steps);
      pid in Next(e, Stop(e.running[pid])).stopped
  {
    RunFaithful(EMPTY, steps);
    assert RunningAt(After(EMPTY, steps), pid);
  }

  // Split starts -----------------------------------------------------------------------------------------

  // In the code a start checks the table, and later starts the process and stores its entry.  pending has the
  // starts that have passed the check and not come to their end.
  datatype Racing = Racing(engine: Engine, pending: multiset<string>)

  const QUIET := Racing(EMPTY, multiset{})

  datatype RacingStep =
    | Check(name: string)
    | Commit(name: string, starts: bool)
    | ExitOf(pid: nat, success: bool)
    | StopOf(name: string)

  function RacingNext(r: Racing, step: RacingStep): Racing {
    match step
    case Check(name) => if Refused(r.engine, name) then r else r.(pending := r.pending + multiset{name})
    case Commit(name, starts) =>
      if name !in r.pending then r
      else Racing(if starts then Store(r.engine, name) else r.engine, r.pending - multiset{name})
    case ExitOf(pid, success) => r.(engine := Next(r.engine, Exit(pid, success)))
    case StopOf(name) => r.(engine := Next(r.engine, Stop(name)))
  }

  function RacingAfter(r: Racing, steps: seq<RacingStep>): Racing
    decreases |steps|
  {
    if steps == [] then r else RacingAfter(RacingNext(r, steps[0]), steps[1..])
  }

  // A start that stores over an entry which says Running by then.
  predicate Overruns(r: Racing, step: RacingStep) {
    step.Commit? && step.starts && step.name in r.pending && Refused(r.engine, step.name)
  }

  predicate NeverOverruns(r: Racing, steps: seq<RacingStep>)
    decreases |steps|
  {
    steps == [] || (!Overruns(r, steps[0]) && NeverOverruns(RacingNext(r, steps[0]), steps[1..]))
  }

  ghost predicate AlwaysFaithful(r: Racing, steps: seq<RacingStep>)
    decreases |steps|
  {
    Faithful(r.engine) && (steps == [] || AlwaysFaithful(RacingNext(r, steps[0]), steps[1..]))
  }

  // Storing keeps the table faithful exactly when the entry does not say Running.
  lemma StoreFaithful(e: Engine, name: string)
    requires Faithful(e)
    ensures Faithful(Store(e, name)) <==> !Refused(e, name)
  {
    if Refused(e, name) {
      var pid := e.procs[name].pid;
      assert EntryAt(e, name);
      assert pid in Store(e, name).running && !RunningAt(Store(e, name), pid);
    } else {
      StartFaithful(e, name);
    }
  }

  lemma RacingStepFaithful(r: Racing, step: RacingStep)
    requires Faithful(r.engine)
    ensures Faithful(RacingNext(r, step).engine) <==> !Overruns(r, step)
  {
    match step
    case Check(_) =>
    case Commit(name, starts) => StoreFaithful(r.engine, name);
    case ExitOf(pid, success) => StepFaithful(r.engine, Exit(pid, success));
    case StopOf(name) => StepFaithful(r.engine, Stop(name));
  }

  // With split starts the table is faithful all through a run exactly when no start stores over an entry that says
  // Running by then: the check that the code makes earlier would have to be made again.
  lemma {:induction false} FaithfulIffNeverOverruns(r: Racing, steps: seq<RacingStep>)
    requires Faithful(r.engine)
    ensures AlwaysFaithful(r, steps) <==> NeverOverruns(r, steps)
    decreases |steps|
  {
    if steps != [] {
      RacingStepFaithful(r, steps[0]);
      if !Overruns(r, steps[0]) {
        FaithfulIffNeverOverruns(RacingNext(r, steps[0]), steps[1..]);
      }
    }
  }

  // A check followed at once by its commit is the atomic start, and cannot overrun.
  lemma AtomicStart(r: Racing, name: string, starts: bool)
    requires name !in r.pending
    ensures var checked := RacingNext(r, Check(name));
      && RacingNext(checked, Commit(name, starts)) == r.(engine := Next(r.engine, Start(name, starts)))
      && !Overruns(checked, Commit(name, starts))
  {
    assert r.pending + multiset{name} - multiset{name} == r.pending;
  }

  // While the table is faithful, a stop among split starts reaches the running process of its name.
  lemma RacingStopReaches(r: Racing, pid: nat)
    requires Faithful(r.engine) && pid in r.engine.running
    ensures pid in RacingNext(r, StopOf(r.engine.running[pid])).engine.stopped
  {
    assert RunningAt(r.engine, pid);
  }

  lemma FirstStep(r: Racing, step: RacingStep, rest: seq<RacingStep>)
    ensures RacingAfter(r, [step] + rest) == RacingAfter(RacingNext(r, step), rest)
    ensures NeverOverruns(r, [step] + rest) <==> !Overruns(r, step) && NeverOverruns(RacingNext(r, step), rest)
  {
    assert ([step] + rest)[1..] == rest;
  }

  // Two starts of one name, both checked before either is stored; then the first process ends.
  function Race(name: string, success: bool): seq<RacingStep> {
    [Check(name)] + ([Check(name)] + ([Commit(name, true)] + ([Commit(name, true)] + ([ExitOf(0, success)] + []))))
  }

  // The two leave two processes running, and the end of the first is shown as the end of the second, which runs on.
  lemma RacingStarts(name: string, success: bool)
    ensures !NeverOverruns(QUIET, Race(name, success))
    ensures var e := RacingAfter(QUIET, Race(name, success)).engine;
      && e.running == map[1 := name] && e.procs == map[name := Proc(if success then Succeeded else Failed, 1)]
      && !Faithful(e)
  {
    var s2 := RacingNext(RacingNext(QUIET, Check(name)), Check(name));
    RaceChecks(name, success);
    RaceCommits(name, success, s2);
    RaceEnds(name, success, s2);
  }

  function RaceRest(name: string, success: bool): seq<RacingStep> {
    [Commit(name, true)] + ([Commit(name, true)] + ([ExitOf(0, success)] + []))
  }

  lemma RaceChecks(name: string, success: bool)
    ensures var s2 := RacingNext(RacingNext(QUIET, Check(name)), Check(name));
      && s2 == Racing(EMPTY, multiset{name, name})
      && RacingAfter(QUIET, Race(name, success)) == RacingAfter(s2, RaceRest(name, success))
      && (NeverOverruns(QUIET, Race(name, success)) ==> NeverOverruns(s2, RaceRest(name, success)))
  {
    var rest := RaceRest(name, success);
    FirstStep(QUIET, Check(name), [Check(name)] + rest);
    FirstStep(RacingNext(QUIET, Check(name)), Check(name), rest);
  }

  lemma RaceCommits(name: string, success: bool, s2: Racing)
    ensures var s3 := RacingNext(s2, Commit(name, true));
      && RacingAfter(s2, RaceRest(name, success)) ==
           RacingNext(RacingNext(s3, Commit(name, true)), ExitOf(0, success))
      && (NeverOverruns(s2, RaceRest(name, success)) ==> !Overruns(s3, Commit(name, true)))
  {
    var commit, last := Commit(name, true), [ExitOf(0, success)] + [];
    var s3 := RacingNext(s2, commit);
    FirstStep(s2, commit, [commit] + last);
    FirstStep(s3, commit, last);
    FirstStep(RacingNext(s3, commit), ExitOf(0, success), []);
  }

  lemma RaceEnds(name: string, success: bool, s2: Racing)
    requires s2 == Racing(EMPTY, multiset{name, name})
    ensures var s3 := RacingNext(s2, Commit(name, true));
      var e := RacingNext(RacingNext(s3, Commit(name, true)), ExitOf(0, success)).engine;
      && Overruns(s3, Commit(name, true))
      && e.running == map[1 := name] && e.procs == map[name := Proc(if success then Succeeded else Failed, 1)]
      && !Faithful(e)
  {
    var s3 := RacingNext(s2, Commit(name, true));
    var s4 := RacingNext(s3, Commit(name, true));
    var e := RacingNext(s4, ExitOf(0, success)).engine;
    assert s4.engine == Store(Store(EMPTY, name), name);
    assert e.running == map[1 := name];
    assert !RunningAt(e, 1);
  }
}
