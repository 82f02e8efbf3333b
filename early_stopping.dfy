/**
 * The early-stopping epoch controller shared by the language-model and the
 * classifier `fit` loops: each epoch trains, validates, then either
 * checkpoints (strict improvement of the tracked metric, or always when early
 * stopping is off) or stops once the epochs since the last improvement exceed
 * the patience. The validation metric of each epoch is an input.
 */
module EarlyStopping {

  /** Whether the tracked metric improves downwards (a loss) or upwards (an accuracy). */
  datatype Direction = Minimize | Maximize

  /** The settings a `fit` resolves from its keyword arguments and its own defaults. */
  datatype Settings = Settings(epochs: int, patience: int, modelFile: string, doEarlyStopping: bool, metric: string)

  /** What the controller does in one run, apart from the metrics. */
  datatype Plan = Plan(dir: Direction, init: real, patience: int, earlyStopping: bool,
                       afterTrain: bool, modelFile: string)

  /** The side effects of `fit`, in order; the session calls behind them are not modelled. */
  datatype Event =
    | Trained(epoch: nat)
    | AfterTrain(epoch: nat)
    | Validated(epoch: nat)
    | Checkpointed(epoch: nat)
    | Saved(epoch: nat, file: string)
    | Stopped(epoch: nat)
    | Restored
    | Tested

  /** `a` is a strict improvement on `b`. */
  predicate Better(dir: Direction, a: real, b: real)
  {
    match dir
    case Minimize => a < b
    case Maximize => a > b
  }

  /** Epoch `e` improves on the starting value and on every earlier epoch. */
  predicate Beats(dir: Direction, init: real, ms: seq<real>, e: nat)
    requires e < |ms|
  {
    Better(dir, ms[e], init) && forall k :: 0 <= k < e ==> Better(dir, ms[e], ms[k])
  }

  /** The running best: `min_metric` or `max_metric` after the metrics `ms`. */
  function Best(dir: Direction, init: real, ms: seq<real>): real
  {
    if ms == [] then init
    else
      var b := Best(dir, init, ms[..|ms| - 1]);
      if Better(dir, ms[|ms| - 1], b) then ms[|ms| - 1] else b
  }

  /** `last_improved` after `n` epochs: the latest improving epoch, or 0. */
  function LastImproved(dir: Direction, init: real, ms: seq<real>, n: nat): (r: nat)
    requires n <= |ms|
    ensures n == 0 || r < n
  {
    if n == 0 then 0
    else if Beats(dir, init, ms, n - 1) then n - 1
    else LastImproved(dir, init, ms, n - 1)
  }

  /** Epoch `e` ends the loop: it does not improve and the patience is used up. */
  predicate StopsAt(p: Plan, ms: seq<real>, e: nat)
    requires e < |ms|
  {
    p.earlyStopping && !Beats(p.dir, p.init, ms, e) && e - LastImproved(p.dir, p.init, ms, e) > p.patience
  }

  /** How many of the epochs `e .. stop - 1` run: up to and including the first that stops. */
  function RunLength(p: Plan, ms: seq<real>, e: nat, stop: nat): (r: nat)
    requires e <= stop <= |ms|
    ensures e <= r <= stop && (e < stop ==> e < r)
    decreases stop - e
  {
    if e == stop then stop
    else if StopsAt(p, ms, e) then e + 1
    else RunLength(p, ms, e + 1, stop)
  }

  /** `range(epochs)` is empty for a negative count. */
  function Planned(epochs: int): nat
  {
    if epochs < 0 then 0 else epochs
  }

  /** The events of epoch `e`. */
  function EpochEvents(p: Plan, ms: seq<real>, e: nat): seq<Event>
    requires e < |ms|
  {
    [Trained(e)] + (if p.afterTrain then [AfterTrain(e)] else []) + [Validated(e)]
    + (if !p.earlyStopping || Beats(p.dir, p.init, ms, e) then [Checkpointed(e), Saved(e, p.modelFile)]
       else if StopsAt(p, ms, e) then [Stopped(e)]
       else [])
  }

  /** The events of the first `n` epochs. */
  function Trace(p: Plan, ms: seq<real>, n: nat): seq<Event>
    requires n <= |ms|
  {
    if n == 0 then [] else Trace(p, ms, n - 1) + EpochEvents(p, ms, n - 1)
  }

  // ---------------------------------------------------------------------------
  // The loop
  // ---------------------------------------------------------------------------

  /**
   * `for epoch in range(epochs)`: train, validate, then checkpoint and save,
   * or stop. Returns the events, the tracked best metric, `last_improved` and
   * how many epochs ran.
   */
  method RunEpochs(p: Plan, ms: seq<real>, epochs: int)
    returns (trace: seq<Event>, best: real, lastImproved: nat, ran: nat)
    requires Planned(epochs) <= |ms|
    ensures ran == RunLength(p, ms, 0, Planned(epochs))
    ensures trace == Trace(p, ms, ran)
    ensures best == if p.earlyStopping then Best(p.dir, p.init, ms[..ran]) else p.init
    ensures lastImproved == if p.earlyStopping then LastImproved(p.dir, p.init, ms, ran) else 0
  {
    var stop := Planned(epochs);
    trace, best, lastImproved := [], p.init, 0;
    var e := 0;
    while e < stop
      invariant e <= stop
      invariant RunLength(p, ms, 0, stop) == RunLength(p, ms, e, stop)
      invariant trace == Trace(p, ms, e)
      invariant best == if p.earlyStopping then Best(p.dir, p.init, ms[..e]) else p.init
      invariant lastImproved == if p.earlyStopping then LastImproved(p.dir, p.init, ms, e) else 0
    {
      var events, stops;
      events, best, lastImproved, stops := RunEpoch(p, ms, e, best, lastImproved);
      trace := trace + events;
      if stops {
        ran := e + 1;
        return;
      }
      e := e + 1;
    }
    ran := stop;
  }

  /** One pass of the loop body, given the running best and `last_improved` before epoch `e`. */
  method RunEpoch(p: Plan, ms: seq<real>, e: nat, best: real, lastImproved: nat)
    returns (events: seq<Event>, best': real, lastImproved': nat, stops: bool)
    requires e < |ms|
    requires best == if p.earlyStopping then Best(p.dir, p.init, ms[..e]) else p.init
    requires lastImproved == if p.earlyStopping then LastImproved(p.dir, p.init, ms, e) else 0
    ensures events == EpochEvents(p, ms, e) && stops == StopsAt(p, ms, e)
    ensures best' == if p.earlyStopping then Best(p.dir, p.init, ms[..e + 1]) else p.init
    ensures lastImproved' == if p.earlyStopping then LastImproved(p.dir, p.init, ms, e + 1) else 0
  {
    events := [Trained(e)] + (if p.afterTrain then [AfterTrain(e)] else []) + [Validated(e)];
    best', lastImproved', stops := best, lastImproved, false;
    var metric := ms[e];
    if p.earlyStopping {
      BeatsIffBetterThanBest(p.dir, p.init, ms, e);
      assert ms[..e + 1][..e] == ms[..e];
    }
    if !p.earlyStopping {
      events := events + [Checkpointed(e), Saved(e, p.modelFile)];
    } else if Better(p.dir, metric, best) {
      lastImproved' := e;
      best' := metric;
      events := events + [Checkpointed(e), Saved(e, p.modelFile)];
    } else if e - lastImproved > p.patience {
      events := events + [Stopped(e)];
      stops := true;
    }
  }

  // ---------------------------------------------------------------------------
  // What the controller promises
  // ---------------------------------------------------------------------------

  /** The running best is the starting value or one of the metrics, and nothing seen improves on it. */
  lemma {:induction false} BestIsExtreme(dir: Direction, init: real, ms: seq<real>)
    ensures Best(dir, init, ms) == init || exists k :: 0 <= k < |ms| && Best(dir, init, ms) == ms[k]
    ensures !Better(dir, init, Best(dir, init, ms))
    ensures forall k :: 0 <= k < |ms| ==> !Better(dir, ms[k], Best(dir, init, ms))
  {
    if ms != [] {
      var front := ms[..|ms| - 1];
      BestIsExtreme(dir, init, front);
      var b := Best(dir, init, front);
      if b != init {
        var k :| 0 <= k < |front| && b == front[k];
        assert b == ms[k];
      }
      forall k | 0 <= k < |ms|
        ensures !Better(dir, ms[k], Best(dir, init, ms))
      {
        if k < |ms| - 1 {
          assert ms[k] == front[k];
        }
      }
    }
  }

  /**
   * The loop's test against the running best is the same as improving on the
   * starting value and on every earlier epoch.
   */
  lemma BeatsIffBetterThanBest(dir: Direction, init: real, ms: seq<real>, e: nat)
    requires e < |ms|
    ensures Beats(dir, init, ms, e) <==> Better(dir, ms[e], Best(dir, init, ms[..e]))
  {
    var b := Best(dir, init, ms[..e]);
    BestIsExtreme(dir, init, ms[..e]);
    if Beats(dir, init, ms, e) && b != init {
      var k :| 0 <= k < e && b == ms[..e][k];
      assert b == ms[k];
    }
    if Better(dir, ms[e], b) {
      forall k | 0 <= k < e
        ensures Better(dir, ms[e], ms[k])
      {
        assert ms[..e][k] == ms[k];
      }
    }
  }

  /** `min_metric` never increases and `max_metric` never decreases. */
  lemma {:induction false} BestMonotone(dir: Direction, init: real, ms: seq<real>, i: nat, j: nat)
    requires i <= j <= |ms|
    ensures var bi, bj := Best(dir, init, ms[..i]), Best(dir, init, ms[..j]);
            bj == bi || Better(dir, bj, bi)
  {
    if i < j {
      BestMonotone(dir, init, ms, i, j - 1);
      assert ms[..j][..j - 1] == ms[..j - 1];
    }
  }

  /** `last_improved` is the latest improving epoch before `n`, or 0 when none improved. */
  lemma {:induction false} LastImprovedLatest(dir: Direction, init: real, ms: seq<real>, n: nat)
    requires n <= |ms|
    ensures var r := LastImproved(dir, init, ms, n);
            && (n > 0 ==> r < n)
            && ((exists k :: 0 <= k < n && Beats(dir, init, ms, k)) <==> (n > 0 && Beats(dir, init, ms, r)))
            && forall k :: r < k < n ==> !Beats(dir, init, ms, k)
  {
    if n > 0 && !Beats(dir, init, ms, n - 1) {
      LastImprovedLatest(dir, init, ms, n - 1);
    }
  }

  /**
   * When some epoch improved, the epoch `last_improved` names holds the best
   * metric: restoring the last checkpoint restores the best one.
   */
  lemma {:induction false} RestoredIsBest(dir: Direction, init: real, ms: seq<real>, n: nat)
    requires n <= |ms| && exists k :: 0 <= k < n && Beats(dir, init, ms, k)
    ensures ms[LastImproved(dir, init, ms, n)] == Best(dir, init, ms[..n])
  {
    var last := ms[..n][n - 1];
    assert ms[..n][..n - 1] == ms[..n - 1];
    BeatsIffBetterThanBest(dir, init, ms, n - 1);
    if !Beats(dir, init, ms, n - 1) {
      RestoredIsBest(dir, init, ms, n - 1);
    }
  }

  /**
   * The loop runs at most the planned epochs, all of them without early
   * stopping; it ends early only at an epoch that stops, and no earlier epoch
   * stops.
   */
  lemma {:induction false} RunLengthMeans(p: Plan, ms: seq<real>, e: nat, stop: nat)
    requires e <= stop <= |ms|
    ensures var r := RunLength(p, ms, e, stop);
            && (forall k :: e <= k < r - 1 ==> !StopsAt(p, ms, k))
            && (r == stop || StopsAt(p, ms, r - 1))
            && (!p.earlyStopping ==> r == stop)
    decreases stop - e
  {
    if e < stop && !StopsAt(p, ms, e) {
      RunLengthMeans(p, ms, e + 1, stop);
    }
  }

  /** An improving epoch never stops the loop, whatever the patience. */
  lemma ImprovingNeverStops(p: Plan, ms: seq<real>, e: nat)
    requires e < |ms| && Beats(p.dir, p.init, ms, e)
    ensures Stopped(e) !in EpochEvents(p, ms, e)
    ensures Checkpointed(e) in EpochEvents(p, ms, e)
  {
    assert EpochEvents(p, ms, e)[|EpochEvents(p, ms, e)| - 2] == Checkpointed(e);
  }

  /** Epoch `e` checkpoints exactly when it runs and either early stopping is off or it improves. */
  lemma {:induction false} CheckpointedIff(p: Plan, ms: seq<real>, n: nat, e: nat)
    requires n <= |ms|
    ensures Checkpointed(e) in Trace(p, ms, n) <==> e < n && (!p.earlyStopping || Beats(p.dir, p.init, ms, e))
  {
    if n > 0 {
      CheckpointedIff(p, ms, n - 1, e);
      var ev := EpochEvents(p, ms, n - 1);
      assert Trace(p, ms, n) == Trace(p, ms, n - 1) + ev;
      if !p.earlyStopping || Beats(p.dir, p.init, ms, n - 1) {
        assert ev[|ev| - 2] == Checkpointed(n - 1);
      }
    }
  }

  /** Only the last epoch that runs can stop, and it stops exactly when it ends the loop early. */
  lemma {:induction false} StoppedIff(p: Plan, ms: seq<real>, n: nat, e: nat)
    requires n <= |ms|
    ensures Stopped(e) in Trace(p, ms, n) <==> e < n && StopsAt(p, ms, e)
  {
    if n > 0 {
      StoppedIff(p, ms, n - 1, e);
      var ev := EpochEvents(p, ms, n - 1);
      assert Trace(p, ms, n) == Trace(p, ms, n - 1) + ev;
      if StopsAt(p, ms, n - 1) {
        assert ev[|ev| - 1] == Stopped(n - 1);
      }
    }
  }

  /** An epoch that checkpoints also saves the model file, right after. */
  lemma {:induction false} SavedWithCheckpoint(p: Plan, ms: seq<real>, n: nat, e: nat)
    requires e < n <= |ms| && (!p.earlyStopping || Beats(p.dir, p.init, ms, e))
    ensures Checkpointed(e) in Trace(p, ms, n) && Saved(e, p.modelFile) in Trace(p, ms, n)
  {
    var ev := EpochEvents(p, ms, n - 1);
    assert Trace(p, ms, n) == Trace(p, ms, n - 1) + ev;
    if e == n - 1 {
      assert ev[|ev| - 2] == Checkpointed(e) && ev[|ev| - 1] == Saved(e, p.modelFile);
    } else {
      SavedWithCheckpoint(p, ms, n - 1, e);
    }
  }

  /** The epoch loop itself never restores nor tests. */
  lemma {:induction false} TestedNotInTrace(p: Plan, ms: seq<real>, n: nat)
    requires n <= |ms|
    ensures Tested !in Trace(p, ms, n) && Restored !in Trace(p, ms, n)
  {
    if n > 0 {
      TestedNotInTrace(p, ms, n - 1);
    }
  }

  /**
   * With the final restore-and-test appended, the checkpoints are still
   * exactly the running epochs that improve (all of them without early
   * stopping), and the test pass happens once when there is a test set and
   * never otherwise.
   */
  lemma WithFinalTest(p: Plan, ms: seq<real>, n: nat, hasTestSet: bool)
    requires n <= |ms|
    ensures var trace := Trace(p, ms, n) + (if hasTestSet then [Restored, Tested] else []);
            && (forall e: nat :: Checkpointed(e) in trace <==> e < n && (!p.earlyStopping || Beats(p.dir, p.init, ms, e)))
            && multiset(trace)[Tested] == if hasTestSet then 1 else 0
  {
    var loop := Trace(p, ms, n);
    var trace := loop + (if hasTestSet then [Restored, Tested] else []);
    TestedNotInTrace(p, ms, n);
    assert multiset(loop)[Tested] == 0;
    assert multiset(trace) == multiset(loop) + multiset(if hasTestSet then [Restored, Tested] else []);
    forall e: nat
      ensures Checkpointed(e) in trace <==> e < n && (!p.earlyStopping || Beats(p.dir, p.init, ms, e))
    {
      assert Checkpointed(e) in trace <==> Checkpointed(e) in loop;
      CheckpointedIff(p, ms, n, e);
    }
  }
}
