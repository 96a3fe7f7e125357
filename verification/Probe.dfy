// The threshold automaton of a probe (engine/health.go).
module Probe {

  const DEFAULT_FAILURE_THRESHOLD := 3
  const DEFAULT_SUCCESS_THRESHOLD := 1

  datatype Thresholds = Thresholds(failure: int, success: int)

  datatype Event = ThresholdReached | Recovered

  // Thresholds that are not positive are replaced by the defaults.
  function Effective(t: Thresholds): Thresholds {
    Thresholds(if t.failure <= 0 then DEFAULT_FAILURE_THRESHOLD else t.failure,
               if t.success <= 0 then DEFAULT_SUCCESS_THRESHOLD else t.success)
  }

  // How many outcomes just before position n of the history equal b.
  function Trailing(history: seq<bool>, n: nat, b: bool): nat
    requires n <= |history|
  {
    if n == 0 || history[n - 1] != b then 0 else Trailing(history, n - 1, b) + 1
  }

  // Whether the probe counts as failed after n outcomes.
  predicate FailedAfter(t: Thresholds, history: seq<bool>, n: nat)
    requires n <= |history|
  {
    if n == 0 then false
    else if FailedAfter(t, history, n - 1) then Trailing(history, n, true) < t.success
    else t.failure <= Trailing(history, n, false)
  }

  // The callbacks made during n outcomes, in order.
  function Events(t: Thresholds, history: seq<bool>, n: nat): seq<Event>
    requires n <= |history|
  {
    if n == 0 then [] else
      var was, now := FailedAfter(t, history, n - 1), FailedAfter(t, history, n);
      Events(t, history, n - 1) + if was == now then [] else if now then [ThresholdReached] else [Recovered]
  }

  class ProbeRunner {
    const thresholds: Thresholds
    var consecutiveFails: int
    var consecutiveSuccesses: int
    var failed: bool
    // The callbacks made.
    var events: seq<Event>

    // The outcomes of all ticks.
    ghost var history: seq<bool>

    // The counters follow the history, but the failure count starts again when its threshold is reached.
    ghost predicate Valid()
      reads this
    {
      && thresholds.failure > 0 && thresholds.success > 0
      && failed == FailedAfter(thresholds, history, |history|)
      && consecutiveSuccesses == Trailing(history, |history|, true)
      && (!failed ==> consecutiveFails == Trailing(history, |history|, false) < thresholds.failure)
      && events == Events(thresholds, history, |history|)
    }

    constructor (t: Thresholds)
      ensures Valid() && thresholds == Effective(t) && history == [] && events == []
    {
      thresholds := Effective(t);
      consecutiveFails, consecutiveSuccesses, failed := 0, 0, false;
      history, events := [], [];
    }

    // One tick: success says how the probe went.
    method Tick(success: bool)
      requires Valid()
      modifies this
      ensures Valid() && history == old(history) + [success]
    {
      Extend(thresholds, history, success, |history|);
      history := history + [success];
      if success {
        consecutiveFails := 0;
        consecutiveSuccesses := consecutiveSuccesses + 1;
        if failed && consecutiveSuccesses >= thresholds.success {
          failed := false;
          events := events + [Recovered];
        }
      } else {
        consecutiveSuccesses := 0;
        consecutiveFails := consecutiveFails + 1;
        if !failed && consecutiveFails >= thresholds.failure {
          failed := true;
          events := events + [ThresholdReached];
          consecutiveFails := 0;
        }
      }
    }
  }

  // A later outcome does not change the past.
  lemma {:induction false} Extend(t: Thresholds, history: seq<bool>, success: bool, n: nat)
    requires n <= |history|
    ensures Trailing(history + [success], n, true) == Trailing(history, n, true)
    ensures Trailing(history + [success], n, false) == Trailing(history, n, false)
    ensures FailedAfter(t, history + [success], n) == FailedAfter(t, history, n)
    ensures Events(t, history + [success], n) == Events(t, history, n)
  {
    if n > 0 {
      Extend(t, history, success, n - 1);
    }
  }

  // A healthy probe has not reached the failure threshold, a failed one not the success threshold.
  lemma {:induction false} BelowThreshold(t: Thresholds, history: seq<bool>, n: nat)
    requires t.failure > 0 && t.success > 0 && n <= |history|
    ensures if FailedAfter(t, history, n) then Trailing(history, n, true) < t.success
            else Trailing(history, n, false) < t.failure
  {
    if n > 0 {
      BelowThreshold(t, history, n - 1);
    }
  }

  // A callback is made exactly when the count of its kind reaches its threshold in the other state.
  lemma FiresExactly(t: Thresholds, history: seq<bool>, n: nat)
    requires t.failure > 0 && t.success > 0 && 0 < n <= |history|
    ensures Events(t, history, n) == Events(t, history, n - 1) +
              if !FailedAfter(t, history, n - 1) && Trailing(history, n, false) == t.failure then [ThresholdReached]
              else if FailedAfter(t, history, n - 1) && Trailing(history, n, true) == t.success then [Recovered]
              else []
  {
    BelowThreshold(t, history, n - 1);
    BelowThreshold(t, history, n);
  }

  // Callbacks alternate, a failure first; the probe is failed when the last one was a failure.
  lemma {:induction false} EventsAlternate(t: Thresholds, history: seq<bool>, n: nat)
    requires n <= |history|
    ensures var events := Events(t, history, n);
      && (forall i :: 0 <= i < |events| ==> events[i] == if i % 2 == 0 then ThresholdReached else Recovered)
      && (FailedAfter(t, history, n) <==> |events| % 2 == 1)
  {
    if n > 0 {
      EventsAlternate(t, history, n - 1);
    }
  }

  // After m outcomes there were enough failures in a row, and never enough successes between then and n.
  ghost predicate FailedSince(t: Thresholds, history: seq<bool>, m: nat, n: nat)
    requires m <= n <= |history|
  {
    && t.failure <= Trailing(history, m, false)
    && forall j :: m < j <= n ==> Trailing(history, j, true) < t.success
  }

  // The history alone decides whether the probe is failed.
  lemma {:induction false} FailedIff(t: Thresholds, history: seq<bool>, n: nat)
    requires t.failure > 0 && t.success > 0 && n <= |history|
    ensures FailedAfter(t, history, n) <==> exists m :: 0 <= m <= n && FailedSince(t, history, m, n)
  {
    if n > 0 {
      FailedIff(t, history, n - 1);
      BelowThreshold(t, history, n);
      forall m | 0 <= m < n
        ensures FailedSince(t, history, m, n) <==>
                  FailedSince(t, history, m, n - 1) && Trailing(history, n, true) < t.success
      {
      }
      if FailedAfter(t, history, n) {
        if FailedAfter(t, history, n - 1) {
          var m :| 0 <= m <= n - 1 && FailedSince(t, history, m, n - 1);
          assert FailedSince(t, history, m, n);
        } else {
          assert FailedSince(t, history, n, n);
        }
      }
      if FailedSince(t, history, n, n) {
        assert Trailing(history, n, true) == 0;
      }
    }
  }

  // So many failures, then so many successes.
  function FailThenSucceed(fails: nat, successes: nat): seq<bool> {
    seq(fails, i => false) + seq(successes, i => true)
  }

  lemma {:induction false} TrailingOnly(history: seq<bool>, n: nat, m: nat, b: bool)
    requires m <= n <= |history| && (forall i :: m <= i < n ==> history[i] == b)
    requires m == 0 || history[m - 1] != b
    ensures Trailing(history, n, b) == n - m
    ensures m < n ==> Trailing(history, n, !b) == 0
  {
    if m < n {
      TrailingOnly(history, n - 1, m, b);
    }
  }

  // A probe that only fails counts as failed from the threshold on: three outcomes, if it is not positive.
  lemma {:induction false} FailsFrom(t: Thresholds, fails: nat, successes: nat, n: nat)
    requires n <= fails
    ensures FailedAfter(Effective(t), FailThenSucceed(fails, successes), n) <==>
            n >= if t.failure <= 0 then 3 else t.failure
  {
    var history := FailThenSucceed(fails, successes);
    TrailingOnly(history, n, 0, false);
    if n > 0 {
      FailsFrom(t, fails, successes, n - 1);
    }
  }

  // A probe that has failed and then only succeeds counts as failed until the other threshold: one outcome, if that
  // is not positive.
  lemma {:induction false} RecoversFrom(t: Thresholds, fails: nat, successes: nat, n: nat)
    requires fails >= (if t.failure <= 0 then 3 else t.failure) && n <= successes
    ensures FailedAfter(Effective(t), FailThenSucceed(fails, successes), fails + n) <==>
            n < if t.success <= 0 then 1 else t.success
  {
    var history := FailThenSucceed(fails, successes);
    if n == 0 {
      FailsFrom(t, fails, successes, fails);
    } else {
      RecoversFrom(t, fails, successes, n - 1);
      TrailingOnly(history, fails + n, fails, true);
    }
  }
}
