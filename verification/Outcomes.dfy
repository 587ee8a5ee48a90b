/** What the row of a document says about its ingestion (app/workers/tasks.py). */
module Outcomes {
  import opened Graph
  import opened Ingest

  /** The worker lives and its last mark arrives. */
  predicate Answered(step: Step, doc: Id) {
    && (step.Die? ==> step.doc != doc)
    && (step.SetFailed? && step.doc == doc ==> step.applied)
  }

  predicate AllAnswered(steps: seq<Step>, doc: Id) {
    forall k :: 0 <= k < |steps| ==> Answered(steps[k], doc)
  }

  /** Pending or running while the task goes on, failed only at its end, and then completed or failed. */
  predicate RowTells(s: State, doc: Id) {
    && (doc in s.status ==> doc in s.tasks)
    && (doc in s.status && doc in s.tasks ==>
          var value, life := s.status[doc], s.tasks[doc].life;
          && (life == Live ==> value in {Pending, Running})
          && (life == Failing ==> value != Failed)
          && (life == Ended ==> value in {Completed, Failed}))
  }

  lemma StepKeepsRow(s: State, step: Step, doc: Id)
    requires RowTells(s, doc) && Enabled(s, step) && Answered(step, doc)
    ensures RowTells(Apply(s, step), doc)
  {
    if step.Upload? || step.SetRunning? || step.SetCompleted? || step.SetFailed? {
      MarkKeepsRow(s, step, doc);
    } else {
      OtherKeepsRow(s, step, doc);
    }
  }

  lemma MarkKeepsRow(s: State, step: Step, doc: Id)
    requires RowTells(s, doc) && Enabled(s, step) && Answered(step, doc)
    requires step.Upload? || step.SetRunning? || step.SetCompleted? || step.SetFailed?
    ensures RowTells(Apply(s, step), doc)
  {
  }

  lemma OtherKeepsRow(s: State, step: Step, doc: Id)
    requires RowTells(s, doc) && Enabled(s, step) && Answered(step, doc)
    requires !step.Upload? && !step.SetRunning? && !step.SetCompleted? && !step.SetFailed?
    ensures RowTells(Apply(s, step), doc)
  {
  }

  lemma {:induction false} RunKeepsRow(s: State, steps: seq<Step>, doc: Id)
    requires RowTells(s, doc) && Run(s, steps) && AllAnswered(steps, doc)
    ensures RowTells(Exec(s, steps), doc)
    decreases |steps|
  {
    if steps != [] {
      assert Answered(steps[0], doc);
      StepKeepsRow(s, steps[0], doc);
      forall k | 0 <= k < |steps[1..]| ensures Answered(steps[1..][k], doc) { assert steps[1..][k] == steps[k + 1]; }
      RunKeepsRow(Apply(s, steps[0]), steps[1..], doc);
    }
  }

  /**
   * Main result, for every interleaving in which the worker lives and its last mark arrives: the row is pending or
   * running as long as the task goes on, and completed or failed once it has ended.
   */
  lemma RowTellsOutcome(steps: seq<Step>, doc: Id)
    requires Run(INITIAL, steps) && AllAnswered(steps, doc)
    ensures var s := Exec(INITIAL, steps);
            doc in s.status ==>
              && doc in s.tasks
              && (s.tasks[doc].life == Live ==> s.status[doc] in {Pending, Running})
              && (s.tasks[doc].life == Ended ==> s.status[doc] in {Completed, Failed})
  {
    RunKeepsRow(INITIAL, steps, doc);
  }

  /** Nothing marks the row of a task that has ended: after the death of its worker it says running for good. */
  lemma {:induction false} EndedRowStays(s: State, steps: seq<Step>, doc: Id)
    requires Run(s, steps) && doc in s.tasks && s.tasks[doc].life == Ended
    ensures var t := Exec(s, steps);
            && doc in t.tasks && t.tasks[doc].life == Ended
            && (doc in t.status ==> doc in s.status && t.status[doc] == s.status[doc])
    decreases |steps|
  {
    if steps != [] {
      EndedStep(s, steps[0], doc);
      EndedRowStays(Apply(s, steps[0]), steps[1..], doc);
    }
  }

  lemma EndedStep(s: State, step: Step, doc: Id)
    requires Enabled(s, step) && doc in s.tasks && s.tasks[doc].life == Ended
    ensures var t := Apply(s, step);
            && doc in t.tasks && t.tasks[doc].life == Ended
            && (doc in t.status ==> doc in s.status && t.status[doc] == s.status[doc])
  {
  }
}
