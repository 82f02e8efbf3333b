/**
 * The classifier's `fit`: the early-stopping loop tracking a maximum of the
 * validation metric (accuracy by default) starting at 0.
 */
module ClassifyTrain {
  import opened Wrappers
  import opened EarlyStopping

  /**
   * The keyword arguments `fit` reads; `None` is an absent key.
   * `LmTrain.Options` is the language model's own set, with `after_train_fn` and other defaults.
   */
  datatype Options = Options(epochs: Option<int>, patience: Option<int>, outfile: Option<string>,
                             doEarlyStopping: Option<bool>, earlyStoppingMetric: Option<string>)

  /** The settings `fit` resolves from its keyword arguments. */
  function Configure(o: Options): Settings
  {
    var epochs := if o.epochs.Some? then o.epochs.value else 20;
    Settings(epochs,
             if o.patience.Some? then o.patience.value else epochs,
             if o.outfile.Some? then o.outfile.value else "./classifier-model-tf",
             if o.doEarlyStopping.Some? then o.doEarlyStopping.value else true,
             if o.earlyStoppingMetric.Some? then o.earlyStoppingMetric.value else "acc")
  }

  /** `max_metric` starts at 0. */
  const START_METRIC: real := 0.0

  function ClassifyPlan(o: Options): Plan
  {
    var s := Configure(o);
    Plan(Maximize, START_METRIC, s.patience, s.doEarlyStopping, false, s.modelFile)
  }

  /**
   * `fit(model, ts, vs, es)` with validation metric `ms[e]` for epoch `e`:
   * the epoch loop, then, with a test set, the best checkpoint restored and
   * one test pass. An epoch checkpoints exactly when early stopping is off or
   * its metric is above 0 and above every earlier one.
   */
  method Fit(o: Options, ms: seq<real>, hasTestSet: bool)
    returns (trace: seq<Event>, maxMetric: real, lastImproved: nat, ran: nat)
    requires Planned(Configure(o).epochs) <= |ms|
    ensures ran == RunLength(ClassifyPlan(o), ms, 0, Planned(Configure(o).epochs))
    ensures trace == Trace(ClassifyPlan(o), ms, ran) + (if hasTestSet then [Restored, Tested] else [])
    ensures ran <= Planned(Configure(o).epochs)
    ensures !Configure(o).doEarlyStopping ==> ran == Planned(Configure(o).epochs) && maxMetric == START_METRIC && lastImproved == 0
    ensures forall e: nat :: Checkpointed(e) in trace <==>
              e < ran && (!Configure(o).doEarlyStopping || Beats(Maximize, START_METRIC, ms, e))
    ensures Configure(o).doEarlyStopping ==> maxMetric == Best(Maximize, START_METRIC, ms[..ran])
    ensures Configure(o).doEarlyStopping ==> lastImproved == LastImproved(Maximize, START_METRIC, ms, ran)
    ensures multiset(trace)[Tested] == if hasTestSet then 1 else 0
  {
    var p := ClassifyPlan(o);
    trace, maxMetric, lastImproved, ran := RunEpochs(p, ms, Configure(o).epochs);
    RunLengthMeans(p, ms, 0, Planned(Configure(o).epochs));
    WithFinalTest(p, ms, ran, hasTestSet);
    if hasTestSet {
      trace := trace + [Restored, Tested];
    }
  }

  /** With no options given: twenty epochs, patience twenty, early stopping on `acc`. */
  lemma Defaults()
    ensures Configure(Options(None, None, None, None, None))
            == Settings(20, 20, "./classifier-model-tf", true, "acc")
  {
  }

  /** A validation metric at or below 0 never checkpoints under early stopping. */
  lemma NonPositiveNeverCheckpoints(o: Options, ms: seq<real>, e: nat)
    requires Planned(Configure(o).epochs) <= |ms| && Configure(o).doEarlyStopping
    requires e < |ms| && ms[e] <= START_METRIC
    ensures Checkpointed(e) !in Trace(ClassifyPlan(o), ms, RunLength(ClassifyPlan(o), ms, 0, Planned(Configure(o).epochs)))
  {
    var p := ClassifyPlan(o);
    CheckpointedIff(p, ms, RunLength(p, ms, 0, Planned(Configure(o).epochs)), e);
  }

  /**
   * After an early-stopping run in which some epoch improved, the checkpoint
   * restored for the final test is the one with the highest metric.
   */
  lemma RestoresBest(o: Options, ms: seq<real>, n: nat)
    requires n <= |ms| && Configure(o).doEarlyStopping
    requires exists e :: 0 <= e < n && Checkpointed(e) in Trace(ClassifyPlan(o), ms, n)
    ensures var last := LastImproved(Maximize, START_METRIC, ms, n);
            Checkpointed(last) in Trace(ClassifyPlan(o), ms, n)
            && ms[last] == Best(Maximize, START_METRIC, ms[..n])
            && forall k :: last < k < n ==> Checkpointed(k) !in Trace(ClassifyPlan(o), ms, n)
  {
    var p := ClassifyPlan(o);
    var e :| 0 <= e < n && Checkpointed(e) in Trace(p, ms, n);
    CheckpointedIff(p, ms, n, e);
    RestoredIsBest(Maximize, START_METRIC, ms, n);
    LastImprovedLatest(Maximize, START_METRIC, ms, n);
    var last := LastImproved(Maximize, START_METRIC, ms, n);
    CheckpointedIff(p, ms, n, last);
    forall k | last < k < n
      ensures Checkpointed(k) !in Trace(p, ms, n)
    {
      CheckpointedIff(p, ms, n, k);
    }
  }
}
