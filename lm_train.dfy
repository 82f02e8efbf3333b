/**
 * The language-model trainer: its per-batch loss accumulation and report
 * cadence, the `valid_epochs` counter, and `fit`, which tracks a minimum of
 * the validation metric starting at 10000.
 */
module LmTrain {
  import opened Wrappers
  import opened EarlyStopping

  // ---------------------------------------------------------------------------
  // The trainer
  // ---------------------------------------------------------------------------

  /** The sum of the batch losses. */
  function Sum(ls: seq<real>): real
  {
    if ls == [] then 0.0 else Sum(ls[..|ls| - 1]) + ls[|ls| - 1]
  }

  /** `total_loss / iters` after the batches `ls`, each counting `nbptt` iterations. */
  function AvgLoss(ls: seq<real>, nbptt: nat): real
    requires |ls| > 0 && nbptt > 0
  {
    Sum(ls) / ((|ls| * nbptt) as real)
  }

  /** A model's unroll length `nbptt`: a positive number of time steps. */
  type Unroll = n: nat | n > 0 witness 1

  /** Batches between two training reports. */
  const REPORT_EVERY: nat := 500

  /** A training report: the batches seen so far and the average loss over them. */
  datatype TrainReport = TrainReport(batches: nat, avgLoss: real)

  /** A test report: the epoch number reported and the average loss. */
  datatype TestReport = TestReport(epoch: nat, avgLoss: real)

  /** Between two multiples of the report interval, a step is due for a report exactly at the upper one. */
  lemma ReportDue(step: nat, q: nat)
    requires REPORT_EVERY * q < step <= REPORT_EVERY * (q + 1)
    ensures step % REPORT_EVERY == 0 <==> step == REPORT_EVERY * (q + 1)
  {
    if step % REPORT_EVERY == 0 {
      var d := step / REPORT_EVERY;
      assert step == REPORT_EVERY * d;
      assert q < d <= q + 1;
    }
  }

  /** The number of reports made after `step` batches is `step / REPORT_EVERY`. */
  lemma ReportTotal(step: nat, q: nat)
    requires REPORT_EVERY * q <= step < REPORT_EVERY * (q + 1)
    ensures step / REPORT_EVERY == q
  {
  }

  class LanguageModelTrainer {
    /** How many validation passes have run. */
    var validEpochs: nat
    /** Iterations per batch (`model.nbptt`). */
    const nbptt: Unroll

    constructor(nbptt: Unroll)
      ensures this.nbptt == nbptt && validEpochs == 0
    {
      this.nbptt := nbptt;
      validEpochs := 0;
    }

    /**
     * `train(ts)` over batches with the given losses: a report after every
     * 500th batch and one at the end. With no batches the final average
     * divides the float 0.0 by 0.
     */
    method Train(losses: seq<real>) returns (r: Result<seq<TrainReport>>)
      ensures r.Success? <==> |losses| > 0
      ensures r.Failure? ==> r.error == ZeroDivisionError
      ensures r.Success? ==> |r.value| == |losses| / REPORT_EVERY + 1
      ensures r.Success? ==> forall k :: 0 <= k < |losses| / REPORT_EVERY ==>
                r.value[k] == TrainReport(REPORT_EVERY * (k + 1), AvgLoss(losses[..REPORT_EVERY * (k + 1)], nbptt))
      ensures r.Success? ==> r.value[|losses| / REPORT_EVERY] == TrainReport(|losses|, AvgLoss(losses, nbptt))
    {
      var total := 0.0;
      var iters := 0;
      var step := 0;
      var reports: seq<TrainReport> := [];
      while step < |losses|
        invariant step <= |losses|
        invariant total == Sum(losses[..step]) && iters == step * nbptt && step <= iters
        invariant REPORT_EVERY * |reports| <= step < REPORT_EVERY * (|reports| + 1)
        invariant forall k :: 0 <= k < |reports| ==>
                    reports[k] == TrainReport(REPORT_EVERY * (k + 1), AvgLoss(losses[..REPORT_EVERY * (k + 1)], nbptt))
      {
        assert losses[..step + 1][..step] == losses[..step];
        total := total + losses[step];
        iters := iters + nbptt;
        step := step + 1;
        ReportDue(step, |reports|);
        if step % REPORT_EVERY == 0 {
          reports := reports + [TrainReport(step, total / (iters as real))];
        }
      }
      if iters == 0 {
        return Failure(ZeroDivisionError);
      }
      ReportTotal(step, |reports|);
      assert losses[..|losses|] == losses;
      r := Success(reports + [TrainReport(step, total / (iters as real))]);
    }

    /**
     * `test(ts, phase)`: a validation pass counts itself and reports its
     * number; any other phase reports epoch 0. The counter moves even when the
     * average then divides by zero, on an empty batch list.
     */
    method Test(losses: seq<real>, phase: string) returns (r: Result<TestReport>)
      modifies this
      ensures validEpochs == old(validEpochs) + (if phase == "Valid" then 1 else 0)
      ensures r.Success? <==> |losses| > 0
      ensures r.Failure? ==> r.error == ZeroDivisionError
      ensures r.Success? ==> r.value == TestReport(if phase == "Valid" then validEpochs else 0, AvgLoss(losses, nbptt))
    {
      var epochs := 0;
      if phase == "Valid" {
        validEpochs := validEpochs + 1;
        epochs := validEpochs;
      }
      var total := 0.0;
      var iters := 0;
      for step := 0 to |losses|
        invariant total == Sum(losses[..step]) && iters == step * nbptt
      {
        assert losses[..step + 1][..step] == losses[..step];
        total := total + losses[step];
        iters := iters + nbptt;
      }
      if iters == 0 {
        return Failure(ZeroDivisionError);
      }
      assert losses[..|losses|] == losses;
      r := Success(TestReport(epochs, total / (iters as real)));
    }
  }

  // ---------------------------------------------------------------------------
  // fit
  // ---------------------------------------------------------------------------

  /**
   * The keyword arguments `fit` reads; `None` is an absent key (or, for `outfile`, `None`).
   * `ClassifyTrain.Options` is the classifier's own set, without `after_train_fn` and with other defaults.
   */
  datatype Options = Options(epochs: Option<int>, patience: Option<int>, outfile: Option<string>,
                             doEarlyStopping: Option<bool>, earlyStoppingMetric: Option<string>,
                             afterTrainFn: bool)

  /** The settings `fit` resolves from its keyword arguments. */
  function Configure(o: Options): Settings
  {
    var epochs := if o.epochs.Some? then o.epochs.value else 5;
    Settings(epochs,
             if o.patience.Some? then o.patience.value else epochs,
             if o.outfile.Some? then o.outfile.value else "./seq2seq-model-tf",
             if o.doEarlyStopping.Some? then o.doEarlyStopping.value else true,
             if o.earlyStoppingMetric.Some? then o.earlyStoppingMetric.value else "avg_loss")
  }

  /** `min_metric` starts at 10000. */
  const START_METRIC: real := 10000.0

  function LmPlan(o: Options): Plan
  {
    var s := Configure(o);
    Plan(Minimize, START_METRIC, s.patience, s.doEarlyStopping, o.afterTrainFn, s.modelFile)
  }

  /**
   * `fit(model, ts, vs, es)` with validation metric `ms[e]` for epoch `e`:
   * the epoch loop, then, with a test set, the last checkpoint restored and
   * one test pass. An epoch checkpoints exactly when early stopping is off or
   * its metric is below 10000 and below every earlier one.
   */
  method Fit(o: Options, ms: seq<real>, hasTestSet: bool)
    returns (trace: seq<Event>, minMetric: real, lastImproved: nat, ran: nat)
    requires Planned(Configure(o).epochs) <= |ms|
    ensures ran == RunLength(LmPlan(o), ms, 0, Planned(Configure(o).epochs))
    ensures trace == Trace(LmPlan(o), ms, ran) + (if hasTestSet then [Restored, Tested] else [])
    ensures ran <= Planned(Configure(o).epochs)
    ensures !Configure(o).doEarlyStopping ==> ran == Planned(Configure(o).epochs) && minMetric == START_METRIC && lastImproved == 0
    ensures forall e: nat :: Checkpointed(e) in trace <==>
              e < ran && (!Configure(o).doEarlyStopping || Beats(Minimize, START_METRIC, ms, e))
    ensures Configure(o).doEarlyStopping ==> minMetric == Best(Minimize, START_METRIC, ms[..ran])
    ensures Configure(o).doEarlyStopping ==> lastImproved == LastImproved(Minimize, START_METRIC, ms, ran)
    ensures multiset(trace)[Tested] == if hasTestSet then 1 else 0
  {
    var p := LmPlan(o);
    trace, minMetric, lastImproved, ran := RunEpochs(p, ms, Configure(o).epochs);
    RunLengthMeans(p, ms, 0, Planned(Configure(o).epochs));
    WithFinalTest(p, ms, ran, hasTestSet);
    if hasTestSet {
      trace := trace + [Restored, Tested];
    }
  }

  /** With no options given: five epochs, patience five, early stopping on `avg_loss`. */
  lemma Defaults()
    ensures Configure(Options(None, None, None, None, None, false))
            == Settings(5, 5, "./seq2seq-model-tf", true, "avg_loss")
  {
  }

  /** Without early stopping, every planned epoch runs and ends in a checkpoint and a save. */
  lemma NoEarlyStoppingCheckpointsAll(o: Options, ms: seq<real>, e: nat)
    requires Planned(Configure(o).epochs) <= |ms| && !Configure(o).doEarlyStopping
    requires e < Planned(Configure(o).epochs)
    ensures var p := LmPlan(o);
            var ran := RunLength(p, ms, 0, Planned(Configure(o).epochs));
            Checkpointed(e) in Trace(p, ms, ran) && Saved(e, Configure(o).modelFile) in Trace(p, ms, ran)
  {
    var p := LmPlan(o);
    RunLengthMeans(p, ms, 0, Planned(Configure(o).epochs));
    SavedWithCheckpoint(p, ms, Planned(Configure(o).epochs), e);
  }
}
