/** Whether a document gets its graph: `_extract_all` and its caller (app/ingest/pipeline.py). */
module ExtractAll {
  import opened Options
  import opened Extract
  import opened FanOut
  import opened Sets

  /** What `gather` makes of the coroutines: the first exception, or all results once they are there. */
  datatype Outcome<R> = Waiting | Raised | Results(results: seq<R>)

  function Gather<R>(s: State<Option<R>>, n: nat): Outcome<R> {
    if exists i :: i in s.done && s.done[i].None? then Raised
    else if AllDone(s, n) then Results(seq(n, i requires 0 <= i < n && AllDone(s, n) => ValueAt(s, i)))
    else Waiting
  }

  predicate AllDone<R>(s: State<R>, n: nat) {
    forall i :: 0 <= i < n ==> i in s.done
  }

  function ValueAt<R>(s: State<Option<R>>, i: nat): R
    requires i in s.done && s.done[i].Some?
  {
    s.done[i].value
  }

  predicate SomeRaises<R>(texts: seq<string>, extract: string -> Option<R>) {
    exists i :: 0 <= i < |texts| && extract(texts[i]).None?
  }

  /**
   * For every schedule, finished or not: an exception comes out only if some extraction raises; results come out
   * if and only if all coroutines have finished and none raised, and then they are the extractions in order.
   */
  lemma GatherOutcome<R>(texts: seq<string>, extract: string -> Option<R>, concurrency: int, steps: seq<Step>)
    requires Schedule(Start<Option<R>>(concurrency), texts, extract, steps)
    ensures var o := Gather(After(Start<Option<R>>(concurrency), texts, extract, steps), |texts|);
            && (o.Raised? ==> SomeRaises(texts, extract))
            && (o.Results? <==> |steps| == 2 * |texts| && !SomeRaises(texts, extract))
            && (|steps| == 2 * |texts| ==> (o.Raised? <==> SomeRaises(texts, extract)))
            && (o.Results? ==> |o.results| == |texts|
                               && forall i :: 0 <= i < |texts| ==> Some(o.results[i]) == extract(texts[i]))
  {
    var s := After(Start<Option<R>>(concurrency), texts, extract, steps);
    ScheduleKeeps(Start<Option<R>>(concurrency), texts, extract, concurrency, 0, steps);
    EverySchedule(texts, extract, concurrency, steps);
    if i :| i in s.done && s.done[i].None? { assert extract(texts[i]).None?; }
    if AllDone(s, |texts|) { AllIn(s.done.Keys, |texts|); }
  }

  /** The pipeline keeps the extractions when they are wanted and nothing was raised; otherwise it goes without. */
  function Extractions<R>(enabled: bool, o: Outcome<R>): Option<seq<R>> {
    if enabled && o.Results? then Some(o.results) else None
  }

  /**
   * Main result: once the fan-out has come to its end, a document gets its graph if and only if extraction is
   * switched on and no reply of the model raises. One reply that does costs the whole document its graph.
   */
  lemma GraphIffNoReplyRaises(enabled: bool, texts: seq<string>, model: string -> Option<Reply>,
                              upper: string -> string, concurrency: int, steps: seq<Step>)
    requires Schedule(Start<Option<ChunkExtraction>>(concurrency), texts,
                      text => ExtractionOf(text, model, upper), steps)
    requires |steps| == 2 * |texts|
    ensures var extract := text => ExtractionOf(text, model, upper);
            var kept := Extractions(enabled, Gather(After(Start(concurrency), texts, extract, steps), |texts|));
            && (kept.Some? <==> enabled && forall i :: 0 <= i < |texts| ==> !Raises(texts[i], model))
            && (kept.Some? ==> |kept.value| == |texts|
                               && forall i :: 0 <= i < |texts| ==>
                                    Some(kept.value[i]) == extract(texts[i]) && WellFormed(kept.value[i]))
  {
    var extract := text => ExtractionOf(text, model, upper);
    GatherOutcome(texts, extract, concurrency, steps);
    forall i | 0 <= i < |texts|
      ensures extract(texts[i]).None? <==> Raises(texts[i], model)
      ensures extract(texts[i]).Some? ==> WellFormed(extract(texts[i]).value)
    {
      ExtractionRaisesIff(texts[i], model, upper);
    }
  }
}
