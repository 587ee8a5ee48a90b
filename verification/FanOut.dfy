/** Bounded fan-out of the entity extractor: `_extract_all` (app/ingest/pipeline.py). */
module FanOut {
  import opened Numbers
  import opened Sets

  /** `free` is the semaphore; one coroutine per text waits, runs under a permit, or is done. */
  datatype State<R> = State(free: nat, running: set<nat>, done: map<nat, R>)

  datatype Step = Acquire(i: nat) | Finish(i: nat)

  function Start<R>(concurrency: int): State<R> {
    State(Max(1, concurrency), {}, map[])
  }

  predicate Enabled<R>(s: State<R>, n: nat, step: Step) {
    match step
    case Acquire(i) => i < n && i !in s.running && i !in s.done && s.free > 0
    case Finish(i) => i in s.running
  }

  function Apply<R>(s: State<R>, texts: seq<string>, extract: string -> R, step: Step): State<R>
    requires Enabled(s, |texts|, step) && (step.Finish? ==> step.i < |texts|)
  {
    match step
    case Acquire(i) => s.(free := s.free - 1, running := s.running + {i})
    case Finish(i) => State(s.free + 1, s.running - {i}, s.done[i := extract(texts[i])])
  }

  ghost predicate Inv<R>(s: State<R>, texts: seq<string>, extract: string -> R, concurrency: int, taken: nat) {
    && s.free + |s.running| == Max(1, concurrency)
    && (forall i :: i in s.running ==> i < |texts| && i !in s.done)
    && (forall i :: i in s.done ==> i < |texts| && s.done[i] == extract(texts[i]))
    && taken == |s.running| + 2 * |s.done|
  }

  /** A schedule: any order of enabled steps. */
  predicate Schedule<R>(s: State<R>, texts: seq<string>, extract: string -> R, steps: seq<Step>)
    decreases |steps|
  {
    steps == [] ||
    (Enabled(s, |texts|, steps[0]) && steps[0].i < |texts|
      && Schedule(Apply(s, texts, extract, steps[0]), texts, extract, steps[1..]))
  }

  function After<R>(s: State<R>, texts: seq<string>, extract: string -> R, steps: seq<Step>): State<R>
    requires Schedule(s, texts, extract, steps)
    decreases |steps|
  {
    if steps == [] then s else After(Apply(s, texts, extract, steps[0]), texts, extract, steps[1..])
  }

  lemma AcquireKeeps<R>(s: State<R>, texts: seq<string>, extract: string -> R, concurrency: int, taken: nat, i: nat)
    requires Inv(s, texts, extract, concurrency, taken) && Enabled(s, |texts|, Acquire(i))
    ensures Inv(Apply(s, texts, extract, Acquire(i)), texts, extract, concurrency, taken + 1)
  {
  }

  lemma FinishKeeps<R>(s: State<R>, texts: seq<string>, extract: string -> R, concurrency: int, taken: nat, i: nat)
    requires Inv(s, texts, extract, concurrency, taken) && Enabled(s, |texts|, Finish(i)) && i < |texts|
    ensures Inv(Apply(s, texts, extract, Finish(i)), texts, extract, concurrency, taken + 1)
  {
    SizeMinus(s.running, {i});
    SizeWith(s.done, i, extract(texts[i]));
  }

  lemma SizeWith<K, V>(m: map<K, V>, k: K, v: V)
    requires k !in m
    ensures |m[k := v]| == |m| + 1
  {
    assert m[k := v].Keys == m.Keys + {k};
  }

  lemma StepKeeps<R>(s: State<R>, texts: seq<string>, extract: string -> R, concurrency: int, taken: nat, step: Step)
    requires Inv(s, texts, extract, concurrency, taken) && Enabled(s, |texts|, step) && step.i < |texts|
    ensures Inv(Apply(s, texts, extract, step), texts, extract, concurrency, taken + 1)
  {
    match step
    case Acquire(i) => AcquireKeeps(s, texts, extract, concurrency, taken, i);
    case Finish(i) => FinishKeeps(s, texts, extract, concurrency, taken, i);
  }

  lemma {:induction false} ScheduleKeeps<R>(s: State<R>, texts: seq<string>, extract: string -> R, concurrency: int,
                                            taken: nat, steps: seq<Step>)
    requires Inv(s, texts, extract, concurrency, taken) && Schedule(s, texts, extract, steps)
    ensures Inv(After(s, texts, extract, steps), texts, extract, concurrency, taken + |steps|)
    decreases |steps|
  {
    if steps != [] {
      StepKeeps(s, texts, extract, concurrency, taken, steps[0]);
      ScheduleKeeps(Apply(s, texts, extract, steps[0]), texts, extract, concurrency, taken + 1, steps[1..]);
    }
  }

  /** Some coroutine can move until every text is done. */
  lemma NeverStuck<R>(s: State<R>, texts: seq<string>, extract: string -> R, concurrency: int, taken: nat)
    requires Inv(s, texts, extract, concurrency, taken)
    ensures (exists step :: Enabled(s, |texts|, step)) <==> |s.done| < |texts|
  {
    Below(s.done.Keys, |texts|);
    assert forall step :: Enabled(s, |texts|, step) ==> step.i < |texts| && step.i !in s.done;
    if |s.done| < |texts| {
      if i :| i in s.running {
        assert Enabled(s, |texts|, Finish(i));
      } else {
        var i :| 0 <= i < |texts| && i !in s.done by {
          if forall i :: 0 <= i < |texts| ==> i in s.done { AllIn(s.done.Keys, |texts|); }
        }
        assert Enabled(s, |texts|, Acquire(i));
      }
    }
  }

  /**
   * Main result, for every schedule: never more than the permitted number in flight, a step possible
   * until all are done, which takes exactly two steps a text, and then result i is the extraction of text i.
   */
  lemma EverySchedule<R>(texts: seq<string>, extract: string -> R, concurrency: int, steps: seq<Step>)
    requires Schedule(Start<R>(concurrency), texts, extract, steps)
    ensures var s := After(Start<R>(concurrency), texts, extract, steps);
            && |s.running| <= Max(1, concurrency)
            && |steps| <= 2 * |texts|
            && ((exists step :: Enabled(s, |texts|, step)) <==> |steps| < 2 * |texts|)
            && (|steps| == 2 * |texts| ==> Gathered(s, texts, extract))
  {
    ScheduleKeeps(Start<R>(concurrency), texts, extract, concurrency, 0, steps);
    var s := After(Start<R>(concurrency), texts, extract, steps);
    NeverStuck(s, texts, extract, concurrency, |steps|);
    var both := s.running + s.done.Keys;
    assert |both| == |s.running| + |s.done| by { assert s.running * s.done.Keys == {}; }
    Below(both, |texts|);
    Below(s.done.Keys, |texts|);
  }

  /** What `gather` returns: every result, in the order of the texts. */
  predicate Gathered<R(==)>(s: State<R>, texts: seq<string>, extract: string -> R) {
    forall i :: 0 <= i < |texts| ==> i in s.done && s.done[i] == extract(texts[i])
  }

  lemma {:induction false} Fill<R>(s: State<R>, texts: seq<string>, extract: string -> R, i: nat, m: nat)
    returns (steps: seq<Step>)
    requires i <= m <= |texts| && s.free >= m - i
    requires forall j: nat :: i <= j < m ==> j !in s.running && j !in s.done
    ensures Schedule(s, texts, extract, steps)
    ensures |After(s, texts, extract, steps).running| == |s.running| + m - i
    decreases m - i
  {
    steps := [];
    if i < m {
      var next := Apply(s, texts, extract, Acquire(i));
      assert next.running == s.running + {i} && |next.running| == |s.running| + 1;
      var later := Fill(next, texts, extract, i + 1, m);
      steps := [Acquire(i)] + later;
      assert steps[1..] == later;
    }
  }

  /** As many as permitted can be in flight together: the bound is reached. */
  lemma AllPermitsUsed<R>(texts: seq<string>, extract: string -> R, concurrency: int) returns (steps: seq<Step>)
    ensures Schedule(Start<R>(concurrency), texts, extract, steps)
    ensures |After(Start<R>(concurrency), texts, extract, steps).running| == Min(Max(1, concurrency), |texts|)
  {
    steps := Fill(Start<R>(concurrency), texts, extract, 0, Min(Max(1, concurrency), |texts|));
  }
}
