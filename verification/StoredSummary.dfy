/** What the stored summary is (app/generate/session.py): a fold over the ranges handed to the summariser. */
module StoredSummary {
  import opened Options
  import opened Sequences
  import opened Session

  /** One call of the summariser: the range it was given and what it replied. */
  datatype Fold = Fold(range: seq<Message>, reply: Option<string>)

  /** The calls of the summariser in a run, in their order. */
  function FoldsOf(s: State, steps: seq<Step>, maxTurns: int): seq<Fold>
    requires Run(s, steps, maxTurns)
    decreases |steps|
  {
    if steps == [] then []
    else StepFolds(s, steps[0]) + FoldsOf(Apply(s, steps[0], maxTurns), steps[1..], maxTurns)
  }

  function StepFolds(s: State, step: Step): seq<Fold>
    requires Enabled(s, step)
  {
    if step.Summarize? then [Fold(s.calls[step.i].overflow, step.reply)] else []
  }

  function FoldOne(summary: string, f: Fold): string {
    Written(summary, Summarized(summary, f.range, f.reply))
  }

  /** The summary after folding in one range after the other. */
  function FoldAll(summary: string, folds: seq<Fold>): string
    decreases |folds|
  {
    if folds == [] then summary else FoldAll(FoldOne(summary, folds[0]), folds[1..])
  }

  /** As before, but the first call of the summariser works from `stale` if it had read that summary earlier. */
  function FoldFrom(told: string, stale: Option<string>, folds: seq<Fold>): string {
    if folds == [] then told
    else if stale.None? then FoldAll(told, folds)
    else FoldAll(Written(told, Summarized(stale.value, folds[0].range, folds[0].reply)), folds[1..])
  }

  function StillStale(stale: Option<string>, folds: seq<Fold>): Option<string> {
    if folds == [] then stale else None
  }

  predicate SummaryCall(s: State, told: string, stale: Option<string>, i: nat)
    requires i < |s.calls|
  {
    var c := s.calls[i];
    && (c.Ranged? ==> s.store.summary == told && stale.None?)
    && (c.Prior? ==> s.store.summary == told && c.prior == if stale.Some? then stale.value else told)
    && (c.Folded? ==> Written(s.store.summary, c.update) == told && stale.None?)
  }

  /**
   * `told` is the fold so far; it is stored, or the only reading call is about to store it. A `stale` summary
   * is one that call has read and the store has lost since.
   */
  predicate SummaryInv(s: State, told: string, stale: Option<string>) {
    && (NoneReading(s.calls) ==> s.store.summary == told && stale.None?)
    && forall i :: 0 <= i < |s.calls| ==> SummaryCall(s, told, stale, i)
  }

  lemma OneFold(told: string, stale: Option<string>, f: Fold)
    ensures FoldFrom(told, stale, [f]) ==
            Written(told, Summarized(if stale.Some? then stale.value else told, f.range, f.reply))
  {
    assert [f][1..] == [];
    assert FoldAll(told, [f]) == FoldAll(FoldOne(told, f), []);
  }

  lemma OwnSummary(s: State, step: Step, maxTurns: int, told: string, stale: Option<string>)
    requires HistoryInv(s) && SummaryInv(s, told, stale) && Enabled(s, step) && Orderly(s, step)
    requires !step.Begin? && !step.ExpireSummary?
    ensures var t, folds := Apply(s, step, maxTurns), StepFolds(s, step);
            && SummaryCall(t, FoldFrom(told, stale, folds), StillStale(stale, folds), step.i)
            && (NoneReading(t.calls) ==>
                  t.store.summary == FoldFrom(told, stale, folds) && StillStale(stale, folds).None?)
  {
    var t := Apply(s, step, maxTurns);
    var i := step.i;
    assert Consistent(s, i) && SummaryCall(s, told, stale, i);
    if step.Summarize? { OneFold(told, stale, StepFolds(s, step)[0]); }
    if !Reading(s.calls[i]) && (forall j :: 0 <= j < |t.calls| && j != i ==> !Reading(t.calls[j])) {
      forall j | 0 <= j < |s.calls| ensures !Reading(s.calls[j]) {
        if j != i { assert t.calls[j] == s.calls[j]; }
      }
    }
  }

  lemma OtherSummary(s: State, step: Step, maxTurns: int, told: string, stale: Option<string>, j: nat)
    requires HistoryInv(s) && SummaryInv(s, told, stale) && Enabled(s, step) && Orderly(s, step)
    requires j < |s.calls| && !step.ExpireSummary? && (step.Begin? || step.i != j)
    ensures SummaryCall(Apply(s, step, maxTurns), FoldFrom(told, stale, StepFolds(s, step)),
                        StillStale(stale, StepFolds(s, step)), j)
  {
    var t := Apply(s, step, maxTurns);
    assert Consistent(s, j) && SummaryCall(s, told, stale, j) && t.calls[j] == s.calls[j];
    if Reading(s.calls[j]) && !step.Begin? {
      assert !Reading(s.calls[step.i]);
      assert step.Push? || step.Measure?;
    }
  }

  lemma StepKeepsSummary(s: State, step: Step, maxTurns: int, told: string, stale: Option<string>)
    requires HistoryInv(s) && SummaryInv(s, told, stale) && Enabled(s, step) && Orderly(s, step)
    requires !step.ExpireSummary?
    ensures SummaryInv(Apply(s, step, maxTurns), FoldFrom(told, stale, StepFolds(s, step)),
                       StillStale(stale, StepFolds(s, step)))
  {
    var t, next := Apply(s, step, maxTurns), FoldFrom(told, stale, StepFolds(s, step));
    var left := StillStale(stale, StepFolds(s, step));
    if step.Begin? {
      if NoneReading(t.calls) {
        assert forall i :: 0 <= i < |s.calls| ==> s.calls[i] == t.calls[i];
      }
    } else {
      OwnSummary(s, step, maxTurns, told, stale);
    }
    forall j | 0 <= j < |t.calls| ensures SummaryCall(t, next, left, j) {
      if j < |s.calls| && (step.Begin? || step.i != j) { OtherSummary(s, step, maxTurns, told, stale, j); }
    }
  }

  predicate SummaryKept(steps: seq<Step>) {
    forall k :: 0 <= k < |steps| ==> !steps[k].ExpireSummary?
  }

  lemma {:induction false} FoldAppend(summary: string, a: seq<Fold>, b: seq<Fold>)
    ensures FoldAll(summary, a + b) == FoldAll(FoldAll(summary, a), b)
    decreases |a|
  {
    if a == [] {
      assert a + b == b;
    } else {
      FoldAppend(FoldOne(summary, a[0]), a[1..], b);
      assert (a + b)[1..] == a[1..] + b;
    }
  }

  lemma FoldFromAppend(told: string, stale: Option<string>, a: seq<Fold>, b: seq<Fold>)
    ensures FoldFrom(told, stale, a + b) == FoldFrom(FoldFrom(told, stale, a), StillStale(stale, a), b)
  {
    if a == [] {
      assert a + b == b;
    } else {
      FoldAppend(told, a, b);
      FoldAppend(Written(told, Summarized(if stale.Some? then stale.value else "", a[0].range, a[0].reply)), a[1..], b);
      assert (a + b)[0] == a[0] && (a + b)[1..] == a[1..] + b;
    }
  }

  lemma {:induction false} RunKeepsSummary(s: State, steps: seq<Step>, maxTurns: int, told: string,
                                           stale: Option<string>)
    requires HistoryInv(s) && SummaryInv(s, told, stale) && OrderlyRun(s, steps, maxTurns) && SummaryKept(steps)
    ensures Run(s, steps, maxTurns)
    ensures var folds := FoldsOf(s, steps, maxTurns);
            SummaryInv(Exec(s, steps, maxTurns), FoldFrom(told, stale, folds), StillStale(stale, folds))
    decreases |steps|
  {
    if steps != [] {
      var t, first := Apply(s, steps[0], maxTurns), StepFolds(s, steps[0]);
      StepKeepsHistory(s, steps[0], maxTurns);
      StepKeepsSummary(s, steps[0], maxTurns, told, stale);
      RunKeepsSummary(t, steps[1..], maxTurns, FoldFrom(told, stale, first), StillStale(stale, first));
      FoldFromAppend(told, stale, first, FoldsOf(t, steps[1..], maxTurns));
    }
  }

  function Ranges(folds: seq<Fold>): seq<Message> {
    if folds == [] then [] else folds[0].range + Ranges(folds[1..])
  }

  lemma {:induction false} RangesAppend(a: seq<Fold>, b: seq<Fold>)
    ensures Ranges(a + b) == Ranges(a) + Ranges(b)
  {
    if a == [] {
      assert a + b == b;
    } else {
      RangesAppend(a[1..], b);
      Assoc(a[0].range, Ranges(a[1..]), Ranges(b));
      assert (a + b)[0] == a[0] && (a + b)[1..] == a[1..] + b;
    }
  }

  lemma {:induction false} HandedIsFolded(s: State, steps: seq<Step>, maxTurns: int)
    requires Run(s, steps, maxTurns)
    ensures Exec(s, steps, maxTurns).handed == s.handed + Ranges(FoldsOf(s, steps, maxTurns))
    decreases |steps|
  {
    if steps != [] {
      var t := Apply(s, steps[0], maxTurns);
      HandedIsFolded(t, steps[1..], maxTurns);
      RangesAppend(StepFolds(s, steps[0]), FoldsOf(t, steps[1..], maxTurns));
      StepHands(s, steps[0], maxTurns);
      Assoc(s.handed, Ranges(StepFolds(s, steps[0])), Ranges(FoldsOf(t, steps[1..], maxTurns)));
    }
  }

  lemma StepHands(s: State, step: Step, maxTurns: int)
    requires Enabled(s, step)
    ensures Apply(s, step, maxTurns).handed == s.handed + Ranges(StepFolds(s, step))
  {
    if step.Summarize? {
      assert StepFolds(s, step)[1..] == [];
    }
  }

  /**
   * Main result, for orderly runs in which the summary key survives: the history is the ranges the summariser
   * was given followed by the live list, and the stored summary is the fold of exactly those ranges, a failed
   * or empty reply leaving it as it was.
   */
  lemma SummaryIsFold(steps: seq<Step>, maxTurns: int)
    requires OrderlyRun(INITIAL, steps, maxTurns) && SummaryKept(steps)
    ensures Run(INITIAL, steps, maxTurns)
    ensures var s := Exec(INITIAL, steps, maxTurns);
            var folds := FoldsOf(INITIAL, steps, maxTurns);
            NoneReading(s.calls) ==>
              s.store.summary == FoldAll("", folds) && s.log == Ranges(folds) + s.store.turns
  {
    RunKeepsSummary(INITIAL, steps, maxTurns, "", None);
    NoMessageLost(steps, maxTurns);
    AllHandedIsFolded(steps, maxTurns);
  }

  lemma AllHandedIsFolded(steps: seq<Step>, maxTurns: int)
    requires Run(INITIAL, steps, maxTurns)
    ensures Exec(INITIAL, steps, maxTurns).handed == Ranges(FoldsOf(INITIAL, steps, maxTurns))
  {
    HandedIsFolded(INITIAL, steps, maxTurns);
    assert [] + Ranges(FoldsOf(INITIAL, steps, maxTurns)) == Ranges(FoldsOf(INITIAL, steps, maxTurns));
  }

  // ---------------------------------------------------------------- after the summary key expired

  /**
   * What a lost summary resumes from: nothing, unless one call had got further. A call that had read the old
   * summary folds its range into that; a call that had its reply stores it.
   */
  predicate Resumes(s: State, told: string, stale: Option<string>) {
    && (NoneReading(s.calls) ==> told == "" && stale == None)
    && forall i :: 0 <= i < |s.calls| ==> ResumesWith(s.calls[i], told, stale)
  }

  predicate ResumesWith(c: Phase, told: string, stale: Option<string>) {
    && (c.Ranged? ==> told == "" && stale == None)
    && (c.Prior? ==> told == "" && stale == Some(c.prior))
    && (c.Folded? ==> told == c.update && stale == None)
  }

  /** In an orderly run there is always exactly one such point to resume from. */
  lemma ResumePoint(s: State) returns (told: string, stale: Option<string>)
    requires HistoryInv(s)
    ensures Resumes(s, told, stale)
  {
    told, stale := "", None;
    if i :| 0 <= i < |s.calls| && Reading(s.calls[i]) {
      var c := s.calls[i];
      if c.Prior? { stale := Some(c.prior); } else if c.Folded? { told := c.update; }
      assert Consistent(s, i);
      forall j | 0 <= j < |s.calls| ensures ResumesWith(s.calls[j], told, stale) {}
    }
  }

  /**
   * Main result with expiry: in an orderly run, the stored summary is the fold of the ranges handed over since
   * the summary key last expired, from what was there to resume from.
   */
  lemma SummarySinceExpiry(before: seq<Step>, after: seq<Step>, maxTurns: int, told: string, stale: Option<string>)
    requires OrderlyRun(INITIAL, before, maxTurns) && Run(INITIAL, before, maxTurns)
    requires var s := Apply(Exec(INITIAL, before, maxTurns), ExpireSummary, maxTurns);
             OrderlyRun(s, after, maxTurns) && SummaryKept(after) && Resumes(s, told, stale)
    ensures var s := Apply(Exec(INITIAL, before, maxTurns), ExpireSummary, maxTurns);
            && Run(s, after, maxTurns)
            && (NoneReading(Exec(s, after, maxTurns).calls) ==>
                  Exec(s, after, maxTurns).store.summary == FoldFrom(told, stale, FoldsOf(s, after, maxTurns)))
  {
    var s0 := Exec(INITIAL, before, maxTurns);
    var s := Apply(s0, ExpireSummary, maxTurns);
    RunKeepsHistory(INITIAL, before, maxTurns);
    StepKeepsHistory(s0, ExpireSummary, maxTurns);
    forall i | 0 <= i < |s.calls| ensures SummaryCall(s, told, stale, i) {
      assert ResumesWith(s.calls[i], told, stale);
    }
    RunKeepsSummary(s, after, maxTurns, told, stale);
  }
}
