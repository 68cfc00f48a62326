// A reorganisation detaches and attaches blocks through one view that is
// loaded lazily and saved once (protocol/block.go, reorganizeChain).  This
// module compares it with using a fresh view and a save for every block.
module ViewRuns {
  import opened Wrappers
  import opened Bc
  import opened UtxoView
  import opened Ledger
  import opened UtxoStore

  /** A stored block with the transaction status found when it was validated. */
  datatype Saved = Saved(block: Block, status: TxStatus)

  datatype Step = Attach(saved: Saved) | Detach(saved: Saved)

  function RunStep(es: Entries, step: Step): Result<Entries, ViewError> {
    match step
    case Attach(s) => ApplyBlock(es, s.block, s.status)
    case Detach(s) => DetachBlock(es, s.block, s.status)
  }

  /** All steps on one view over the same stored outputs. */
  function OneView(stored: Entries, es: Entries, steps: seq<Step>): Result<Entries, ViewError> {
    if steps == [] then Ok(es)
    else
      var es' :- OneView(stored, es, steps[..|steps| - 1]);
      var step := steps[|steps| - 1];
      RunStep(Load(stored, es', step.saved.block.transactions), step)
  }

  /** Every step on its own view, saved before the next one starts. */
  function FreshViews(stored: Entries, steps: seq<Step>): Result<Entries, ViewError> {
    if steps == [] then Ok(stored)
    else
      var stored' :- FreshViews(stored, steps[..|steps| - 1]);
      var step := steps[|steps| - 1];
      var es :- RunStep(Load(stored', map[], step.saved.block.transactions), step);
      Ok(Save(stored', es))
  }

  function StepActions(step: Step): Option<seq<Action>> {
    match step
    case Attach(s) => BlockActions(s.block, s.status)
    case Detach(s) => InvertOption(BlockActions(s.block, s.status))
  }

  function StepsActions(steps: seq<Step>): Option<seq<Action>> {
    if steps == [] then Some([])
    else Join(StepsActions(steps[..|steps| - 1]), StepActions(steps[|steps| - 1]))
  }

  lemma RunStepSimulates(stored: Entries, es: Entries, step: Step)
    ensures Simulates(stored, es, RunStep(Load(stored, es, step.saved.block.transactions), step), StepActions(step))
  {
    var s := step.saved;
    var loaded := Load(stored, es, s.block.transactions);
    LoadCovers(stored, es, s.block.transactions);
    ApplyTxsSimulates(stored, loaded, s.block, s.status, |s.block.transactions|);
    DetachTxsSimulates(stored, loaded, s.block, s.status, |s.block.transactions|);
  }

  lemma {:induction false} OneViewSimulates(stored: Entries, es: Entries, steps: seq<Step>)
    ensures Simulates(stored, es, OneView(stored, es, steps), StepsActions(steps))
  {
    if steps != [] {
      var init, step := steps[..|steps| - 1], steps[|steps| - 1];
      OneViewSimulates(stored, es, init);
      var r, before, acts := OneView(stored, es, init), StepsActions(init), StepActions(step);
      if r.Ok? {
        RunStepSimulates(stored, r.value, step);
        if acts.Some? {
          SimulatesThen(stored, es, r.value, before.value, OneView(stored, es, steps), acts.value);
        }
      } else if before.Some? && acts.Some? {
        DoAllConcat(Meaning(stored + es), before.value, acts.value);
      }
    }
  }

  lemma {:induction false} FreshViewsSimulate(stored: Entries, steps: seq<Step>)
    ensures FreshViews(stored, steps).Ok? <==>
            StepsActions(steps).Some? && DoAll(Meaning(stored), StepsActions(steps).value).Some?
    ensures FreshViews(stored, steps).Ok? ==>
            DoAll(Meaning(stored), StepsActions(steps).value) == Some(Meaning(FreshViews(stored, steps).value))
  {
    if steps != [] {
      var init, step := steps[..|steps| - 1], steps[|steps| - 1];
      FreshViewsSimulate(stored, init);
      var r, before, acts := FreshViews(stored, init), StepsActions(init), StepActions(step);
      if r.Ok? {
        RunStepSimulates(r.value, map[], step);
        assert r.value + map[] == r.value;
        var es := RunStep(Load(r.value, map[], step.saved.block.transactions), step);
        if es.Ok? {
          SaveKeepsMeaning(r.value, es.value);
        }
      }
      if before.Some? && acts.Some? {
        DoAllConcat(Meaning(stored), before.value, acts.value);
      }
    }
  }

  /** The stored outputs after running all steps on one view, if they are accepted. */
  function RunAndSave(stored: Entries, steps: seq<Step>): Result<Entries, ViewError> {
    var es :- OneView(stored, map[], steps);
    Ok(Save(stored, es))
  }

  lemma RunAndSaveSimulates(stored: Entries, steps: seq<Step>)
    ensures RunAndSave(stored, steps).Ok? <==>
            StepsActions(steps).Some? && DoAll(Meaning(stored), StepsActions(steps).value).Some?
    ensures RunAndSave(stored, steps).Ok? ==>
            DoAll(Meaning(stored), StepsActions(steps).value) == Some(Meaning(RunAndSave(stored, steps).value))
  {
    OneViewSimulates(stored, map[], steps);
    assert stored + map[] == stored;
    var r := OneView(stored, map[], steps);
    if r.Ok? {
      SaveKeepsMeaning(stored, r.value);
    }
  }

  /** One lazily loaded view saved once is as good as a fresh view and a save per block:
      the same verdict and the same meaning, for every sequence of steps over any stored outputs. */
  lemma OneViewLikeFreshViews(stored: Entries, steps: seq<Step>)
    ensures RunAndSave(stored, steps).Ok? <==> FreshViews(stored, steps).Ok?
    ensures RunAndSave(stored, steps).Ok? ==>
            Meaning(RunAndSave(stored, steps).value) == Meaning(FreshViews(stored, steps).value)
  {
    RunAndSaveSimulates(stored, steps);
    FreshViewsSimulate(stored, steps);
  }
}
