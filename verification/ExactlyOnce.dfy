/**
 * Which runs of overlapping `append_turn` calls hand every message that leaves the live list to the
 * summariser exactly once (app/generate/session.py), expiry and reset included.
 */
module ExactlyOnce {
  import opened Session

  /** How many messages have left the live list; the next one to leave has this position in the log. */
  function Cut(s: State): int { |s.log| - |s.store.turns| }

  function Positions(from: int, n: nat): seq<int> {
    seq(n, k requires 0 <= k < n => from + k)
  }

  /** The log positions a step reads for the summariser. */
  function ReadBy(s: State, step: Step): seq<int>
    requires Enabled(s, step)
  {
    if step.ReadRange? then Positions(Cut(s), |Head(s.store.turns, s.calls[step.i].over)|) else []
  }

  function Reads(s: State, steps: seq<Step>, maxTurns: int): seq<int>
    requires Run(s, steps, maxTurns)
    decreases |steps|
  {
    if steps == [] then []
    else ReadBy(s, steps[0]) + Reads(Apply(s, steps[0], maxTurns), steps[1..], maxTurns)
  }

  /**
   * With `read` messages read so far: a range is read only when all of those have left the list,
   * and no step, be it a trim, an expiry or a reset, removes more than those.
   */
  predicate Careful(s: State, step: Step, maxTurns: int, read: nat)
    requires Enabled(s, step)
  {
    (ReadBy(s, step) != [] ==> Cut(s) == read) && Cut(Apply(s, step, maxTurns)) <= read
  }

  predicate CarefulRun(s: State, steps: seq<Step>, maxTurns: int, read: nat)
    requires Run(s, steps, maxTurns)
    decreases |steps|
  {
    steps == [] ||
    (Careful(s, steps[0], maxTurns, read)
     && CarefulRun(Apply(s, steps[0], maxTurns), steps[1..], maxTurns, read + |ReadBy(s, steps[0])|))
  }

  predicate Distinct(ps: seq<int>) {
    forall j, k :: 0 <= j < k < |ps| ==> ps[j] != ps[k]
  }

  /** The positions below `n`, each once. */
  ghost predicate Once(ps: seq<int>, n: int) {
    Distinct(ps) && forall p :: p in ps <==> 0 <= p < n
  }

  // ---------------------------------------------------------------- as long as every step is careful

  predicate SomeoneTrims(s: State, read: nat) {
    exists i :: 0 <= i < |s.calls| && Reading(s.calls[i]) && s.calls[i].over >= read - Cut(s)
  }

  ghost predicate Good(s: State, past: seq<int>) {
    && Once(past, |past|) && 0 <= Cut(s) <= |past| <= |s.log|
    && (Cut(s) == |past| || SomeoneTrims(s, |past|))
  }

  lemma OnceMore(past: seq<int>, n: nat)
    requires Once(past, |past|)
    ensures Once(past + Positions(|past|, n), |past| + n)
  {
    var all := past + Positions(|past|, n);
    forall p | |past| <= p < |past| + n ensures p in all { assert all[p] == p; }
    forall p | 0 <= p < |past| ensures p in all { assert p in past; }
    forall j, k | 0 <= j < k < |all| ensures all[j] != all[k] {
      if k >= |past| {
        assert all[k] == k && (j < |past| ==> past[j] in past);
      } else {
        assert all[j] == past[j] && all[k] == past[k];
      }
    }
  }

  lemma CarefulRead(s: State, step: Step, maxTurns: int, past: seq<int>)
    requires Good(s, past) && Enabled(s, step) && step.ReadRange? && Careful(s, step, maxTurns, |past|)
    ensures Good(Apply(s, step, maxTurns), past + ReadBy(s, step))
  {
    var t := Apply(s, step, maxTurns);
    var range := ReadBy(s, step);
    assert Reading(t.calls[step.i]) && t.calls[step.i].over >= |range|;
    if range == [] {
      assert past + range == past;
      if Cut(s) < |past| { SomeoneStays(s, step, maxTurns, |past|); }
    } else {
      OnceMore(past, |range|);
      assert SomeoneTrims(t, |past + range|);
    }
  }

  /** A reader still has to trim after any step but its own trim. */
  lemma SomeoneStays(s: State, step: Step, maxTurns: int, read: nat)
    requires Enabled(s, step) && !step.Trim?
    requires Cut(Apply(s, step, maxTurns)) >= Cut(s) && SomeoneTrims(s, read)
    ensures SomeoneTrims(Apply(s, step, maxTurns), read)
  {
    var t := Apply(s, step, maxTurns);
    var i :| 0 <= i < |s.calls| && Reading(s.calls[i]) && s.calls[i].over >= read - Cut(s);
    assert Reading(t.calls[i]) && t.calls[i].over == s.calls[i].over;
  }

  lemma TrimReaches(s: State, step: Step, maxTurns: int, past: seq<int>)
    requires Good(s, past) && Enabled(s, step) && step.Trim? && Cut(Apply(s, step, maxTurns)) <= |past|
    ensures Good(Apply(s, step, maxTurns), past)
  {
    var t := Apply(s, step, maxTurns);
    if Cut(s) < |past| && Cut(t) < |past| {
      var i :| 0 <= i < |s.calls| && Reading(s.calls[i]) && s.calls[i].over >= |past| - Cut(s);
      assert i != step.i;
      assert t.calls[i] == s.calls[i];
    }
  }

  lemma CarefulStep(s: State, step: Step, maxTurns: int, past: seq<int>)
    requires Good(s, past) && Enabled(s, step) && Careful(s, step, maxTurns, |past|)
    ensures Good(Apply(s, step, maxTurns), past + ReadBy(s, step))
  {
    if step.ReadRange? {
      CarefulRead(s, step, maxTurns, past);
    } else {
      assert past + [] == past;
      if step.Trim? {
        TrimReaches(s, step, maxTurns, past);
      } else if Cut(s) < |past| {
        SomeoneStays(s, step, maxTurns, |past|);
      }
    }
  }

  // ---------------------------------------------------------------- what a careless step does

  /** Some message read twice, or gone from the list without having been read. */
  ghost predicate Bad(s: State, past: seq<int>) {
    !Distinct(past) || exists p :: 0 <= p < Cut(s) && p !in past
  }

  lemma CutGrows(s: State, step: Step, maxTurns: int)
    requires Enabled(s, step)
    ensures Cut(Apply(s, step, maxTurns)) >= Cut(s)
  {
  }

  /** There is no repairing it. */
  lemma BadStep(s: State, step: Step, maxTurns: int, past: seq<int>)
    requires Bad(s, past) && Enabled(s, step)
    ensures Bad(Apply(s, step, maxTurns), past + ReadBy(s, step))
  {
    var t, range := Apply(s, step, maxTurns), ReadBy(s, step);
    CutGrows(s, step, maxTurns);
    if !Distinct(past) {
      var j, k :| 0 <= j < k < |past| && past[j] == past[k];
      assert (past + range)[j] == (past + range)[k];
    } else {
      var p :| 0 <= p < Cut(s) && p !in past;
      assert p !in range;
      assert p !in past + range && p < Cut(t);
    }
  }

  lemma CarelessStep(s: State, step: Step, maxTurns: int, past: seq<int>)
    requires Good(s, past) && Enabled(s, step) && !Careful(s, step, maxTurns, |past|)
    ensures Bad(Apply(s, step, maxTurns), past + ReadBy(s, step))
  {
    var t, range := Apply(s, step, maxTurns), ReadBy(s, step);
    if range != [] {
      assert Cut(s) in past;
      var j :| 0 <= j < |past| && past[j] == Cut(s);
      assert (past + range)[j] == (past + range)[|past|];
    } else {
      assert past + range == past;
      assert |past| !in past;
    }
  }

  // ---------------------------------------------------------------- whole runs

  lemma ReadsFrom(s: State, steps: seq<Step>, maxTurns: int, past: seq<int>)
    requires Run(s, steps, maxTurns) && steps != []
    ensures past + ReadBy(s, steps[0]) + Reads(Apply(s, steps[0], maxTurns), steps[1..], maxTurns)
            == past + Reads(s, steps, maxTurns)
  {
    var range, later := ReadBy(s, steps[0]), Reads(Apply(s, steps[0], maxTurns), steps[1..], maxTurns);
    assert past + range + later == past + (range + later);
  }

  lemma {:induction false} CarefulRunStaysGood(s: State, steps: seq<Step>, maxTurns: int, past: seq<int>)
    requires Good(s, past) && Run(s, steps, maxTurns) && CarefulRun(s, steps, maxTurns, |past|)
    ensures Good(Exec(s, steps, maxTurns), past + Reads(s, steps, maxTurns))
    decreases |steps|
  {
    if steps == [] {
      assert past + [] == past;
    } else {
      var t, range := Apply(s, steps[0], maxTurns), ReadBy(s, steps[0]);
      CarefulStep(s, steps[0], maxTurns, past);
      CarefulRunStaysGood(t, steps[1..], maxTurns, past + range);
      ReadsFrom(s, steps, maxTurns, past);
    }
  }

  lemma {:induction false} BadRunStaysBad(s: State, steps: seq<Step>, maxTurns: int, past: seq<int>)
    requires Bad(s, past) && Run(s, steps, maxTurns)
    ensures Bad(Exec(s, steps, maxTurns), past + Reads(s, steps, maxTurns))
    decreases |steps|
  {
    if steps == [] {
      assert past + [] == past;
    } else {
      var t, range := Apply(s, steps[0], maxTurns), ReadBy(s, steps[0]);
      BadStep(s, steps[0], maxTurns, past);
      BadRunStaysBad(t, steps[1..], maxTurns, past + range);
      ReadsFrom(s, steps, maxTurns, past);
    }
  }

  lemma {:induction false} CarelessRunGoesBad(s: State, steps: seq<Step>, maxTurns: int, past: seq<int>)
    requires Good(s, past) && Run(s, steps, maxTurns) && !CarefulRun(s, steps, maxTurns, |past|)
    ensures Bad(Exec(s, steps, maxTurns), past + Reads(s, steps, maxTurns))
    decreases |steps|
  {
    var t, range := Apply(s, steps[0], maxTurns), ReadBy(s, steps[0]);
    if Careful(s, steps[0], maxTurns, |past|) {
      CarefulStep(s, steps[0], maxTurns, past);
      CarelessRunGoesBad(t, steps[1..], maxTurns, past + range);
    } else {
      CarelessStep(s, steps[0], maxTurns, past);
      BadRunStaysBad(t, steps[1..], maxTurns, past + range);
    }
    ReadsFrom(s, steps, maxTurns, past);
  }

  /**
   * Main result, for every interleaving with expiry and reset anywhere and every turn limit: once no call
   * is between reading and trimming, the messages that left the list are the messages read for the
   * summariser, each once, if and only if every step of the run was careful.
   */
  lemma ExactlyOnceIff(steps: seq<Step>, maxTurns: int)
    requires Run(INITIAL, steps, maxTurns) && NoneReading(Exec(INITIAL, steps, maxTurns).calls)
    ensures Once(Reads(INITIAL, steps, maxTurns), Cut(Exec(INITIAL, steps, maxTurns)))
            <==> CarefulRun(INITIAL, steps, maxTurns, 0)
  {
    var all := Reads(INITIAL, steps, maxTurns);
    assert [] + all == all;
    if CarefulRun(INITIAL, steps, maxTurns, 0) {
      CarefulRunStaysGood(INITIAL, steps, maxTurns, []);
    } else {
      CarelessRunGoesBad(INITIAL, steps, maxTurns, []);
    }
  }

  // ---------------------------------------------------------------- orderly runs are careful

  predicate TidyCall(s: State, read: int, i: nat)
    requires i < |s.calls|
  {
    var c := s.calls[i];
    Reading(c) ==>
      && Taken(c) <= c.over && Taken(c) <= |s.store.turns| && read == Cut(s) + Taken(c)
      && forall j :: 0 <= j < |s.calls| && j != i ==> !Reading(s.calls[j])
  }

  predicate Tidy(s: State, read: int) {
    && (NoneReading(s.calls) ==> read == Cut(s))
    && forall i :: 0 <= i < |s.calls| ==> TidyCall(s, read, i)
  }

  lemma OrderlyStepIsCareful(s: State, step: Step, maxTurns: int, read: nat)
    requires Tidy(s, read) && Enabled(s, step) && Orderly(s, step)
    ensures Careful(s, step, maxTurns, read)
  {
    SomeoneOrCut(s, read);
    if step.Trim? { assert TidyCall(s, read, step.i); }
  }

  lemma SomeoneOrCut(s: State, read: int)
    requires Tidy(s, read)
    ensures Cut(s) <= read
  {
    if i :| 0 <= i < |s.calls| && Reading(s.calls[i]) { assert TidyCall(s, read, i); }
  }

  lemma OwnTidy(s: State, step: Step, maxTurns: int, read: int)
    requires Tidy(s, read) && Enabled(s, step) && Orderly(s, step) && !step.Begin? && !step.ExpireSummary?
    ensures TidyCall(Apply(s, step, maxTurns), read + |ReadBy(s, step)|, step.i)
    ensures var t := Apply(s, step, maxTurns);
            NoneReading(t.calls) ==> read == Cut(t) && !step.ReadRange?
  {
    var t := Apply(s, step, maxTurns);
    var i := step.i;
    assert TidyCall(s, read, i);
    if !Reading(s.calls[i]) && (forall j :: 0 <= j < |t.calls| && j != i ==> !Reading(t.calls[j])) {
      forall j | 0 <= j < |s.calls| ensures !Reading(s.calls[j]) {
        if j != i { assert t.calls[j] == s.calls[j]; }
      }
    }
  }

  lemma OtherTidy(s: State, step: Step, maxTurns: int, read: int, j: nat)
    requires Tidy(s, read) && Enabled(s, step) && Orderly(s, step)
    requires j < |s.calls| && !step.ExpireSummary? && (step.Begin? || step.i != j)
    ensures TidyCall(Apply(s, step, maxTurns), read + |ReadBy(s, step)|, j)
  {
    var t := Apply(s, step, maxTurns);
    assert TidyCall(s, read, j) && t.calls[j] == s.calls[j];
    if Reading(s.calls[j]) && !step.Begin? {
      assert !Reading(s.calls[step.i]);
      assert step.Push? || step.Measure?;
    }
  }

  lemma StepKeepsTidy(s: State, step: Step, maxTurns: int, read: int)
    requires Tidy(s, read) && Enabled(s, step) && Orderly(s, step)
    ensures Tidy(Apply(s, step, maxTurns), read + |ReadBy(s, step)|)
  {
    var t, next := Apply(s, step, maxTurns), read + |ReadBy(s, step)|;
    if step.ExpireSummary? {
      forall i | 0 <= i < |t.calls| ensures TidyCall(t, read, i) { assert TidyCall(s, read, i); }
    } else {
      if step.Begin? {
        if NoneReading(t.calls) {
          assert forall i :: 0 <= i < |s.calls| ==> s.calls[i] == t.calls[i];
        }
      } else {
        OwnTidy(s, step, maxTurns, read);
      }
      forall j | 0 <= j < |t.calls| ensures TidyCall(t, next, j) {
        if j < |s.calls| && (step.Begin? || step.i != j) { OtherTidy(s, step, maxTurns, read, j); }
      }
    }
  }

  /** Keeping read-to-trim sections apart, with no trim longer than its range, makes every step careful. */
  lemma {:induction false} OrderlyIsCareful(s: State, steps: seq<Step>, maxTurns: int, read: nat)
    requires Tidy(s, read) && OrderlyRun(s, steps, maxTurns)
    ensures Run(s, steps, maxTurns) && CarefulRun(s, steps, maxTurns, read)
    decreases |steps|
  {
    if steps != [] {
      OrderlyStepIsCareful(s, steps[0], maxTurns, read);
      StepKeepsTidy(s, steps[0], maxTurns, read);
      OrderlyIsCareful(Apply(s, steps[0], maxTurns), steps[1..], maxTurns, read + |ReadBy(s, steps[0])|);
    }
  }

  // ---------------------------------------------------------------- what is read is what is handed over

  /** The message a call has read and not yet handed over. */
  function Waiting(c: Phase): seq<Message> {
    if c.Ranged? || c.Prior? then c.overflow else []
  }

  function Copies(ms: seq<Message>, m: Message): nat { multiset(ms)[m] }

  function WaitingCopies(calls: seq<Phase>, m: Message): nat {
    if calls == [] then 0 else Copies(Waiting(calls[0]), m) + WaitingCopies(calls[1..], m)
  }

  lemma {:induction false} WaitingUpdate(calls: seq<Phase>, i: nat, c: Phase, m: Message)
    requires i < |calls|
    ensures WaitingCopies(calls[i := c], m) + Copies(Waiting(calls[i]), m)
            == WaitingCopies(calls, m) + Copies(Waiting(c), m)
  {
    if i == 0 {
      assert calls[0 := c][1..] == calls[1..];
    } else {
      WaitingUpdate(calls[1..], i - 1, c, m);
      assert calls[i := c][1..] == calls[1..][i - 1 := c];
    }
  }

  lemma {:induction false} WaitingAppend(calls: seq<Phase>, c: Phase, m: Message)
    ensures WaitingCopies(calls + [c], m) == WaitingCopies(calls, m) + Copies(Waiting(c), m)
  {
    if calls == [] {
      assert calls + [c] == [c] && [c][1..] == [];
    } else {
      WaitingAppend(calls[1..], c, m);
      assert (calls + [c])[1..] == calls[1..] + [c];
    }
  }

  lemma CopiesAppend(a: seq<Message>, b: seq<Message>, m: Message)
    ensures Copies(a + b, m) == Copies(a, m) + Copies(b, m)
  {
  }

  predicate Within(ps: seq<int>, n: nat) {
    forall k :: 0 <= k < |ps| ==> 0 <= ps[k] < n
  }

  function Contents(log: seq<Message>, ps: seq<int>): seq<Message>
    requires Within(ps, |log|)
  {
    seq(|ps|, k requires 0 <= k < |ps| => log[ps[k]])
  }

  /** Handed over or waiting to be: the messages at the positions read so far. */
  ghost predicate Accounted(s: State, past: seq<int>, m: Message) {
    && SuffixOf(s.store.turns, s.log) && Within(past, |s.log|)
    && Copies(s.handed, m) + WaitingCopies(s.calls, m) == Copies(Contents(s.log, past), m)
  }

  lemma RangeRead(s: State, over: nat)
    requires SuffixOf(s.store.turns, s.log)
    ensures var range := Positions(Cut(s), |Head(s.store.turns, over)|);
            Within(range, |s.log|) && Contents(s.log, range) == Head(s.store.turns, over)
  {
  }

  lemma ContentsAppend(log: seq<Message>, a: seq<int>, b: seq<int>)
    requires Within(a, |log|) && Within(b, |log|)
    ensures Within(a + b, |log|) && Contents(log, a + b) == Contents(log, a) + Contents(log, b)
  {
  }

  lemma ReadAccounted(s: State, step: Step, maxTurns: int, past: seq<int>, m: Message)
    requires Accounted(s, past, m) && Enabled(s, step) && step.ReadRange?
    ensures Accounted(Apply(s, step, maxTurns), past + ReadBy(s, step), m)
  {
    var over := s.calls[step.i].over;
    var head, range := Head(s.store.turns, over), ReadBy(s, step);
    WaitingUpdate(s.calls, step.i, Ranged(over, head), m);
    RangeRead(s, over);
    ContentsAppend(s.log, past, range);
    CopiesAppend(Contents(s.log, past), head, m);
  }

  lemma SummarizeAccounted(s: State, step: Step, maxTurns: int, past: seq<int>, m: Message)
    requires Accounted(s, past, m) && Enabled(s, step) && step.Summarize?
    ensures Accounted(Apply(s, step, maxTurns), past, m)
  {
    WaitingUpdate(s.calls, step.i, Apply(s, step, maxTurns).calls[step.i], m);
    CopiesAppend(s.handed, s.calls[step.i].overflow, m);
  }

  lemma OtherAccounted(s: State, step: Step, maxTurns: int, past: seq<int>, m: Message)
    requires Accounted(s, past, m) && Enabled(s, step) && !step.ReadRange? && !step.Summarize?
    ensures Accounted(Apply(s, step, maxTurns), past, m)
  {
    if step.Begin? {
      WaitingAppend(s.calls, Ready(step.question, step.answer), m);
    } else if step.Push? {
      PushAccounted(s, step, maxTurns, past, m);
    } else if step.Measure? || step.ReadSummary? || step.Trim? {
      WaitingUpdate(s.calls, step.i, Apply(s, step, maxTurns).calls[step.i], m);
    }
  }

  lemma PushAccounted(s: State, step: Step, maxTurns: int, past: seq<int>, m: Message)
    requires Accounted(s, past, m) && Enabled(s, step) && step.Push?
    ensures Accounted(Apply(s, step, maxTurns), past, m)
  {
    WaitingUpdate(s.calls, step.i, Pushed, m);
    assert Contents(Apply(s, step, maxTurns).log, past) == Contents(s.log, past);
  }

  lemma {:induction false} RunAccounted(s: State, steps: seq<Step>, maxTurns: int, past: seq<int>, m: Message)
    requires Accounted(s, past, m) && Run(s, steps, maxTurns)
    ensures Accounted(Exec(s, steps, maxTurns), past + Reads(s, steps, maxTurns), m)
    decreases |steps|
  {
    if steps == [] {
      assert past + [] == past;
    } else {
      var t, range := Apply(s, steps[0], maxTurns), ReadBy(s, steps[0]);
      StepAccounted(s, steps[0], maxTurns, past, m);
      RunAccounted(t, steps[1..], maxTurns, past + range, m);
      ReadsFrom(s, steps, maxTurns, past);
    }
  }

  lemma StepAccounted(s: State, step: Step, maxTurns: int, past: seq<int>, m: Message)
    requires Accounted(s, past, m) && Enabled(s, step)
    ensures Accounted(Apply(s, step, maxTurns), past + ReadBy(s, step), m)
  {
    if step.ReadRange? {
      ReadAccounted(s, step, maxTurns, past, m);
    } else {
      assert past + ReadBy(s, step) == past;
      if step.Summarize? {
        SummarizeAccounted(s, step, maxTurns, past, m);
      } else {
        OtherAccounted(s, step, maxTurns, past, m);
      }
    }
  }

  lemma {:induction false} NothingWaits(calls: seq<Phase>, m: Message)
    requires NoneReading(calls)
    ensures WaitingCopies(calls, m) == 0
  {
    if calls != [] { NothingWaits(calls[1..], m); }
  }

  /** Every run: what the summariser was given is, message for message, what was read. */
  lemma HandedIsRead(steps: seq<Step>, maxTurns: int)
    requires Run(INITIAL, steps, maxTurns) && NoneReading(Exec(INITIAL, steps, maxTurns).calls)
    ensures var e := Exec(INITIAL, steps, maxTurns);
            var ps := Reads(INITIAL, steps, maxTurns);
            Within(ps, |e.log|) && multiset(e.handed) == multiset(Contents(e.log, ps))
  {
    var e, ps := Exec(INITIAL, steps, maxTurns), Reads(INITIAL, steps, maxTurns);
    assert [] + ps == ps;
    RunAccounted(INITIAL, steps, maxTurns, [], Message(User, ""));
    forall m ensures Within(ps, |e.log|) && Copies(e.handed, m) == Copies(Contents(e.log, ps), m) {
      RunAccounted(INITIAL, steps, maxTurns, [], m);
      NothingWaits(e.calls, m);
    }
    SameCopies(e.handed, Contents(e.log, ps));
  }

  lemma SameCopies(a: seq<Message>, b: seq<Message>)
    requires forall m :: Copies(a, m) == Copies(b, m)
    ensures multiset(a) == multiset(b)
  {
    forall m ensures multiset(a)[m] == multiset(b)[m] { assert Copies(a, m) == Copies(b, m); }
  }
}
