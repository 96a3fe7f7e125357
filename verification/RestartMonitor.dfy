// The restart monitor of one launched pod (engine/lifecycle.go) and the container status it shows.
module RestartMonitor {
  import opened ApiTypes

  // The monitor polls the engine, waits before a restart, or has returned.
  datatype Mode = Watching | BackingOff | Returned

  // phase is what the engine reports for the pod.
  datatype State = State(policy: string, phase: Phase, restartCount: int, ready: bool, mode: Mode)

  // Exit: the process ends.  Tick: the monitor polls.  Wake: the pause is over and the engine starts the
  // process, or fails to.  Cancel: the pod is terminated.  Probe: a readiness probe calls back.
  datatype Step = Exit(success: bool) | Tick | Wake(startOk: bool) | Cancel | Probe(ready: bool)

  datatype Event = Started | Exited(phase: Phase) | Denied | StartFailed | Cancelled

  predicate ShouldRestart(policy: string, phase: Phase) {
    var p := if policy == "" then "Always" else policy;
    if p == "Always" then true
    else if p == "OnFailure" then phase == Failed
    else false
  }

  // A pod that has just been launched.
  function Launched(policy: string): State {
    State(policy, Running, 0, true, Watching)
  }

  predicate Done(phase: Phase) {
    phase == Succeeded || phase == Failed
  }

  function Next(s: State, step: Step): State {
    match step
    case Exit(success) => if s.phase == Running then s.(phase := if success then Succeeded else Failed) else s
    case Tick =>
      if s.mode != Watching || !Done(s.phase) then s
      else if !ShouldRestart(s.policy, s.phase) then s.(mode := Returned)
      else s.(restartCount := s.restartCount + 1, ready := false, mode := BackingOff)
    case Wake(startOk) =>
      if s.mode != BackingOff then s
      else if !startOk then s.(mode := Returned)
      else s.(phase := Running, ready := true, mode := Watching)
    case Cancel => s.(mode := Returned)
    case Probe(ready) => s.(ready := ready)
  }

  // What the step adds to the pod's history.
  function Happens(s: State, step: Step): seq<Event> {
    match step
    case Exit(success) => if s.phase == Running then [Exited(if success then Succeeded else Failed)] else []
    case Tick =>
      if s.mode == Watching && Done(s.phase) && !ShouldRestart(s.policy, s.phase) then [Denied] else []
    case Wake(startOk) =>
      if s.mode != BackingOff then [] else if startOk then [Started] else [StartFailed]
    case Cancel => if s.mode == Returned then [] else [Cancelled]
    case Probe(_) => []
  }

  function AfterFrom(s: State, steps: seq<Step>): State
    decreases |steps|
  {
    if steps == [] then s else AfterFrom(Next(s, steps[0]), steps[1..])
  }

  function HistoryFrom(s: State, h: seq<Event>, steps: seq<Step>): seq<Event>
    decreases |steps|
  {
    if steps == [] then h else HistoryFrom(Next(s, steps[0]), h + Happens(s, steps[0]), steps[1..])
  }

  function After(policy: string, steps: seq<Step>): State {
    AfterFrom(Launched(policy), steps)
  }

  // The history of a pod, which begins with the start that launched it.
  function History(policy: string, steps: seq<Step>): seq<Event> {
    HistoryFrom(Launched(policy), [Started], steps)
  }

  class Monitor {
    const policy: string
    var phase: Phase
    var restartCount: int
    var ready: bool
    var mode: Mode

    ghost function Value(): State
      reads this
    {
      State(policy, phase, restartCount, ready, mode)
    }

    constructor (policy: string)
      ensures Value() == Launched(policy)
    {
      this.policy := policy;
      phase, restartCount, ready, mode := Running, 0, true, Watching;
    }

    method ProcessExits(success: bool)
      modifies this
      ensures Value() == Next(old(Value()), Exit(success))
    {
      if phase == Running {
        phase := if success then Succeeded else Failed;
      }
    }

    method Poll()
      requires mode == Watching
      modifies this
      ensures Value() == Next(old(Value()), Tick)
    {
      if phase != Succeeded && phase != Failed {
        return;
      }
      if !ShouldRestart(policy, phase) {
        mode := Returned;
        return;
      }
      restartCount := restartCount + 1;
      ready := false;
      mode := BackingOff;
    }

    method RestartAfterBackoff(startOk: bool)
      requires mode == BackingOff
      modifies this
      ensures Value() == Next(old(Value()), Wake(startOk))
    {
      if !startOk {
        mode := Returned;
        return;
      }
      phase := Running;
      ready := true;
      mode := Watching;
    }

    method Terminate()
      modifies this
      ensures Value() == Next(old(Value()), Cancel)
    {
      mode := Returned;
    }

    method ProbeCallback(isReady: bool)
      modifies this
      ensures Value() == Next(old(Value()), Probe(isReady))
    {
      ready := isReady;
    }
  }

  function Starts(history: seq<Event>): nat {
    if history == [] then 0 else
      Starts(history[..|history| - 1]) + if history[|history| - 1] == Started then 1 else 0
  }

  // Whether the pod's process runs: it has not exited since its last start.
  predicate Alive(history: seq<Event>) {
    if history == [] then false
    else match history[|history| - 1]
      case Started => true
      case Exited(_) => false
      case _ => Alive(history[..|history| - 1])
  }

  predicate Ends(e: Event) {
    e == Denied || e == StartFailed || e == Cancelled
  }

  // Every start but the first comes right after an exit after which the policy permits one.
  ghost predicate StartsPermitted(policy: string, h: seq<Event>) {
    forall i :: 0 < i < |h| && h[i] == Started ==> h[i - 1].Exited? && ShouldRestart(policy, h[i - 1].phase)
  }

  // No start comes after a denied exit, a failed restart or a termination.
  ghost predicate NoStartAfterEnd(h: seq<Event>) {
    forall i, j :: 0 <= i < j < |h| && Ends(h[i]) ==> h[j] != Started
  }

  ghost predicate NoEnd(h: seq<Event>) {
    forall i :: 0 <= i < |h| ==> !Ends(h[i])
  }

  // How the state reflects the history.
  predicate Reflects(s: State, h: seq<Event>) {
    && |h| > 0 && h[0] == Started
    && (s.mode == Watching ==> if s.phase == Running then h[|h| - 1] == Started else h[|h| - 1] == Exited(s.phase))
    && (s.mode == BackingOff ==>
          h[|h| - 1] == Exited(s.phase) && Done(s.phase) && ShouldRestart(s.policy, s.phase))
    && (s.phase == Running || Done(s.phase)) && (s.phase == Running <==> Alive(h))
    && (s.mode == Watching ==> s.restartCount == Starts(h) - 1)
    && (s.mode == BackingOff ==> s.restartCount == Starts(h))
    && (Starts(h) - 1 <= s.restartCount <= Starts(h))
  }

  ghost predicate Consistent(s: State, h: seq<Event>) {
    && Reflects(s, h)
    && (s.mode != Returned ==> NoEnd(h))
    && StartsPermitted(s.policy, h) && NoStartAfterEnd(h)
  }

  lemma Happened(h: seq<Event>, e: Event)
    ensures Starts(h + [e]) == Starts(h) + if e == Started then 1 else 0
    ensures Alive(h + [e]) == if e == Started then true else if e.Exited? then false else Alive(h)
  {
    assert (h + [e])[..|h + [e]| - 1] == h;
  }

  lemma StepReflects(s: State, h: seq<Event>, step: Step)
    requires Reflects(s, h)
    ensures Reflects(Next(s, step), h + Happens(s, step))
  {
    var more := Happens(s, step);
    if more == [] {
      assert h + more == h;
    } else {
      Happened(h, more[0]);
      assert h + more == h + [more[0]];
    }
  }

  lemma EventAllowed(policy: string, h: seq<Event>, e: Event)
    requires |h| > 0 && StartsPermitted(policy, h) && NoStartAfterEnd(h)
    requires e == Started ==> NoEnd(h) && h[|h| - 1].Exited? && ShouldRestart(policy, h[|h| - 1].phase)
    ensures StartsPermitted(policy, h + [e]) && NoStartAfterEnd(h + [e])
    ensures NoEnd(h) && !Ends(e) ==> NoEnd(h + [e])
  {
  }

  lemma StepConsistent(s: State, h: seq<Event>, step: Step)
    requires Consistent(s, h)
    ensures Consistent(Next(s, step), h + Happens(s, step))
  {
    StepReflects(s, h, step);
    var more := Happens(s, step);
    if more == [] {
      assert h + more == h;
    } else {
      EventAllowed(s.policy, h, more[0]);
      assert h + more == h + [more[0]];
    }
  }

  lemma LaunchConsistent(policy: string)
    ensures Consistent(Launched(policy), [Started])
  {
    Happened([], Started);
    assert [] + [Started] == [Started];
  }

  // Over every run.
  lemma {:induction false} RunConsistentFrom(s: State, h: seq<Event>, steps: seq<Step>)
    requires Consistent(s, h)
    ensures AfterFrom(s, steps).policy == s.policy
    ensures Consistent(AfterFrom(s, steps), HistoryFrom(s, h, steps))
    decreases |steps|
  {
    if steps != [] {
      StepConsistent(s, h, steps[0]);
      RunConsistentFrom(Next(s, steps[0]), h + Happens(s, steps[0]), steps[1..]);
    }
  }

  lemma RunConsistent(policy: string, steps: seq<Step>)
    ensures After(policy, steps).policy == policy
    ensures Consistent(After(policy, steps), History(policy, steps))
  {
    LaunchConsistent(policy);
    RunConsistentFrom(Launched(policy), [Started], steps);
  }

  // The restart count is the number of starts after the first, or one more once a restart is due.
  lemma RestartsCounted(policy: string, steps: seq<Step>)
    ensures var s, restarts := After(policy, steps), Starts(History(policy, steps)) - 1;
      && (s.mode == Watching ==> s.restartCount == restarts)
      && (s.mode == BackingOff ==> s.restartCount == restarts + 1)
      && (s.restartCount == restarts || s.restartCount == restarts + 1)
  {
    RunConsistent(policy, steps);
  }

  lemma {:induction false} OneStart(policy: string, h: seq<Event>)
    requires |h| > 0 && h[0] == Started && StartsPermitted(policy, h)
    requires policy != "" && policy != "Always" && policy != "OnFailure"
    ensures Starts(h) == 1
  {
    if |h| > 1 {
      OneStart(policy, h[..|h| - 1]);
    } else {
      assert h[..|h| - 1] == [];
    }
  }

  // A container shows as ready only while its process runs, whatever the probes have said meanwhile.
  lemma ReadyWhileAlive(policy: string, steps: seq<Step>)
    requires After(policy, steps).ready && After(policy, steps).phase == Running
    ensures Alive(History(policy, steps)) && After(policy, steps).mode != BackingOff
  {
    RunConsistent(policy, steps);
  }

  // In terms of policies and phases ----------------------------------------------------------------------

  lemma {:induction false} OneStepMore(s: State, steps: seq<Step>, step: Step)
    ensures AfterFrom(s, steps + [step]) == Next(AfterFrom(s, steps), step)
    decreases |steps|
  {
    if steps == [] {
      assert AfterFrom(Next(s, step), []) == Next(s, step);
    } else {
      assert (steps + [step])[1..] == steps[1..] + [step];
      OneStepMore(Next(s, steps[0]), steps[1..], step);
    }
  }

  lemma {:induction false} OneEventMore(s: State, h: seq<Event>, steps: seq<Step>, step: Step)
    ensures HistoryFrom(s, h, steps + [step]) == HistoryFrom(s, h, steps) + Happens(AfterFrom(s, steps), step)
    decreases |steps|
  {
    if steps == [] {
      assert HistoryFrom(Next(s, step), h + Happens(s, step), []) == h + Happens(s, step);
    } else {
      assert (steps + [step])[1..] == steps[1..] + [step];
      OneEventMore(Next(s, steps[0]), h + Happens(s, steps[0]), steps[1..], step);
    }
  }

  ghost predicate ExitsEnd(h: seq<Event>) {
    forall i :: 0 <= i < |h| && h[i].Exited? ==> h[i].phase == Succeeded || h[i].phase == Failed
  }

  lemma {:induction false} ExitsAreEnds(s: State, h: seq<Event>, steps: seq<Step>)
    requires ExitsEnd(h)
    ensures ExitsEnd(HistoryFrom(s, h, steps))
    decreases |steps|
  {
    if steps != [] {
      ExitsAreEnds(Next(s, steps[0]), h + Happens(s, steps[0]), steps[1..]);
    }
  }

  // A start that is not the first comes right after a failure, under "", "Always" or "OnFailure", or right after a
  // success, under "" or "Always".
  predicate RestartAllowed(policy: string, before: Event) {
    || (before == Exited(Failed) && (policy == "" || policy == "Always" || policy == "OnFailure"))
    || (before == Exited(Succeeded) && (policy == "" || policy == "Always"))
  }

  // Over every run; and no start comes after a denied exit, a failed restart or a termination.
  lemma RestartsPermitted(policy: string, steps: seq<Step>)
    ensures var h := History(policy, steps);
      && (forall i :: 0 < i < |h| && h[i] == Started ==> RestartAllowed(policy, h[i - 1]))
      && NoStartAfterEnd(h)
      && (policy != "" && policy != "Always" && policy != "OnFailure" ==> Starts(h) == 1)
  {
    var h := History(policy, steps);
    RunConsistent(policy, steps);
    ExitsAreEnds(Launched(policy), [Started], steps);
    forall i | 0 < i < |h| && h[i] == Started
      ensures RestartAllowed(policy, h[i - 1])
    {
      assert h[i - 1].Exited?;
    }
    if policy != "" && policy != "Always" && policy != "OnFailure" {
      OneStart(policy, h);
    }
  }

  // The end of the running process is reported and recorded by how it went.
  lemma ExitRecorded(policy: string, steps: seq<Step>, success: bool)
    requires After(policy, steps).phase == Running
    ensures After(policy, steps + [Exit(success)]) ==
            After(policy, steps).(phase := if success then Succeeded else Failed)
    ensures History(policy, steps + [Exit(success)]) ==
            History(policy, steps) + [if success then Exited(Succeeded) else Exited(Failed)]
  {
    OneStepMore(Launched(policy), steps, Exit(success));
    OneEventMore(Launched(policy), [Started], steps, Exit(success));
  }

  // After any run, a monitor that polls when the pod's process has ended waits for a restart under "" and "Always",
  // and after a failure under "OnFailure"; otherwise it returns.
  lemma PollDecides(policy: string, steps: seq<Step>)
    requires After(policy, steps).mode == Watching && |History(policy, steps)| > 0
    requires History(policy, steps)[|History(policy, steps)| - 1].Exited?
    ensures var s := After(policy, steps + [Tick]);
      && (s.mode == BackingOff <==>
            || policy == "" || policy == "Always"
            || (policy == "OnFailure" && History(policy, steps)[|History(policy, steps)| - 1] == Exited(Failed)))
      && (s.mode == BackingOff ==> !s.ready && s.restartCount == After(policy, steps).restartCount + 1)
      && (s.mode != BackingOff ==> s.mode == Returned)
      && History(policy, steps + [Tick]) == History(policy, steps) + if s.mode == Returned then [Denied] else []
  {
    RunConsistent(policy, steps);
    OneStepMore(Launched(policy), steps, Tick);
    OneEventMore(Launched(policy), [Started], steps, Tick);
  }

  // A monitor that polls a process that has not ended does nothing.
  lemma PollWaits(policy: string, steps: seq<Step>)
    requires After(policy, steps).phase == Running || After(policy, steps).phase == Pending
    ensures After(policy, steps + [Tick]) == After(policy, steps)
  {
    OneStepMore(Launched(policy), steps, Tick);
  }

  // After the pause the pod is running, ready and watched again, or the monitor has returned with the pod as it
  // ended.
  lemma WakeRestarts(policy: string, steps: seq<Step>, startOk: bool)
    requires After(policy, steps).mode == BackingOff
    ensures var before, s := After(policy, steps), After(policy, steps + [Wake(startOk)]);
      && s.restartCount == before.restartCount
      && if startOk then s.mode == Watching && s.phase == Running && s.ready
         else s.mode == Returned && s.phase == before.phase && s.ready == before.ready
    ensures History(policy, steps + [Wake(startOk)]) ==
            History(policy, steps) + [if startOk then Started else StartFailed]
  {
    OneStepMore(Launched(policy), steps, Wake(startOk));
    OneEventMore(Launched(policy), [Started], steps, Wake(startOk));
  }

  // A termination ends the monitor, wherever it is, and is recorded unless the monitor has ended before.
  lemma TerminationEnds(policy: string, steps: seq<Step>)
    ensures After(policy, steps + [Cancel]) == After(policy, steps).(mode := Returned)
    ensures History(policy, steps + [Cancel]) ==
            History(policy, steps) + if After(policy, steps).mode == Returned then [] else [Cancelled]
  {
    OneStepMore(Launched(policy), steps, Cancel);
    OneEventMore(Launched(policy), [Started], steps, Cancel);
  }

  // Once it has ended it starts nothing any more, whatever happens.
  lemma {:induction false} EndedForGood(policy: string, steps: seq<Step>, more: seq<Step>)
    requires After(policy, steps).mode == Returned
    ensures After(policy, steps + more).mode == Returned
    ensures Starts(History(policy, steps + more)) == Starts(History(policy, steps))
    decreases |more|
  {
    if more == [] {
      assert steps + more == steps;
    } else {
      var init, last := more[..|more| - 1], more[|more| - 1];
      EndedForGood(policy, steps, init);
      assert steps + more == (steps + init) + [last];
      OneStepMore(Launched(policy), steps + init, last);
      OneEventMore(Launched(policy), [Started], steps + init, last);
      EndedStays(After(policy, steps + init), History(policy, steps + init), last);
    }
  }

  lemma EndedStays(s: State, h: seq<Event>, step: Step)
    requires s.mode == Returned
    ensures Next(s, step).mode == Returned && Starts(h + Happens(s, step)) == Starts(h)
  {
    var happens := Happens(s, step);
    if happens == [] {
      assert h + happens == h;
    } else {
      Happened(h, happens[0]);
      assert happens == [happens[0]];
    }
  }

  // A launched pod is ready until a probe or its end says otherwise; a probe's word counts at once.
  lemma ProbeDecides(policy: string, steps: seq<Step>, ready: bool)
    ensures After(policy, []).ready && After(policy, []).phase == Running && After(policy, []).mode == Watching
    ensures After(policy, steps + [Probe(ready)]) == After(policy, steps).(ready := ready)
    ensures History(policy, steps + [Probe(ready)]) == History(policy, steps)
  {
    OneStepMore(Launched(policy), steps, Probe(ready));
    OneEventMore(Launched(policy), [Started], steps, Probe(ready));
  }
}
