/**
 * Per-session conversation memory (app/generate/session.py).
 *
 * `append_turn` talks to Redis in separate atomic steps. Calls on one session can overlap,
 * keys can expire and the session can be reset between any two of them.
 */
module Session {

  import opened Numbers
  import opened Options

  datatype Role = User | Assistant
  datatype Message = Message(role: Role, content: string)

  /** The two Redis keys of a session; a missing key reads as empty. */
  datatype Store = Store(turns: seq<Message>, summary: string)

  function Pair(question: string, answer: string): seq<Message> {
    [Message(User, question), Message(Assistant, answer)]
  }

  /** `LRANGE key 0 over-1` and `LTRIM key over -1`. */
  function Head(turns: seq<Message>, over: nat): seq<Message> { turns[..Min(over, |turns|)] }
  function Trimmed(turns: seq<Message>, over: nat): seq<Message> { turns[Min(over, |turns|)..] }

  /** `_summarize`: `reply` is what the model answered, `None` when the call failed. */
  function Summarized(prior: string, overflow: seq<Message>, reply: Option<string>): string {
    if overflow == [] || reply.None? then prior else reply.value
  }

  function Written(summary: string, update: string): string {
    if update != "" then update else summary
  }

  // ---------------------------------------------------------------- one call on its own

  /** The store after a call that nothing interleaves with. */
  function AfterTurn(s: Store, question: string, answer: string, maxTurns: int, reply: Option<string>): Store {
    var turns := s.turns + Pair(question, answer);
    var over := |turns| - maxTurns * 2;
    if over <= 0 then s.(turns := turns)
    else Store(Trimmed(turns, over), Written(s.summary, Summarized(s.summary, Head(turns, over), reply)))
  }

  /** The entries that decode to a role and a content; the others are skipped. */
  function Decoded(raw: seq<Message>, decode: Message -> Option<Message>): seq<Message> {
    if raw == [] then []
    else
      var before, m := Decoded(raw[..|raw| - 1], decode), decode(raw[|raw| - 1]);
      if m.Some? then before + [m.value] else before
  }

  /** The entries a call pushed decode to themselves, so nothing is skipped. */
  lemma {:induction false} DecodedAll(raw: seq<Message>, decode: Message -> Option<Message>)
    requires forall m :: m in raw ==> decode(m) == Some(m)
    ensures Decoded(raw, decode) == raw
  {
    if raw != [] { DecodedAll(raw[..|raw| - 1], decode); }
  }

  /** Entry by entry, in order: an entry that does not decode takes nothing else with it. */
  lemma {:induction false} DecodedParts(a: seq<Message>, b: seq<Message>, decode: Message -> Option<Message>)
    ensures Decoded(a + b, decode) == Decoded(a, decode) + Decoded(b, decode)
    ensures |b| == 1 ==> Decoded(b, decode) == if decode(b[0]).Some? then [decode(b[0]).value] else []
  {
    if b == [] {
      assert a + b == a;
    } else {
      var n := |b| - 1;
      assert (a + b)[..|a + b| - 1] == a + b[..n];
      DecodedParts(a, b[..n], decode);
    }
  }

  class Memory {
    var turns: seq<Message>
    var summary: string

    constructor ()
      ensures turns == [] && summary == ""
    {
      turns, summary := [], "";
    }

    /** The list and the summary are two reads: `meanwhile` is what other callers do in between. */
    method Load(decode: Message -> Option<Message>, meanwhile: Store -> Store)
      returns (summaryText: string, live: seq<Message>)
      modifies this
      ensures Store(turns, summary) == meanwhile(old(Store(turns, summary)))
      ensures live == Decoded(old(turns), decode) && summaryText == summary
    {
      var raw := turns;
      var between := meanwhile(Store(turns, summary));
      turns, summary := between.turns, between.summary;
      summaryText := summary;
      live := [];
      for k := 0 to |raw|
        invariant live == Decoded(raw[..k], decode)
      {
        assert raw[..k + 1][..k] == raw[..k];
        if decode(raw[k]).Some? { live := live + [decode(raw[k]).value]; }
      }
      assert raw[..|raw|] == raw;
    }

    method AppendTurn(question: string, answer: string, maxTurns: int, reply: Option<string>)
      modifies this
      ensures Store(turns, summary) == AfterTurn(old(Store(turns, summary)), question, answer, maxTurns, reply)
    {
      turns := turns + Pair(question, answer);
      var over := |turns| - maxTurns * 2;
      if over <= 0 { return; }
      var overflow := Head(turns, over);
      var prior := summary;
      var update := Summarized(prior, overflow, reply);
      turns := Trimmed(turns, over);
      if update != "" { summary := update; }
    }

    method Reset()
      modifies this
      ensures turns == [] && summary == ""
    {
      turns, summary := [], "";
    }
  }

  function Budget(maxTurns: int): nat { if maxTurns > 0 then 2 * maxTurns else 0 }

  /** The newest messages stay, as many as the budget allows, and a failed summary keeps the old one. */
  lemma AfterTurnKeepsNewest(s: Store, question: string, answer: string, maxTurns: int, reply: Option<string>)
    ensures var all := s.turns + [Message(User, question), Message(Assistant, answer)];
            var after := AfterTurn(s, question, answer, maxTurns, reply);
            && |after.turns| == Min(|all|, Budget(maxTurns))
            && after.turns == all[|all| - |after.turns|..]
            && after.summary ==
                 if |all| > maxTurns * 2 && reply.Some? && reply.value != "" then reply.value else s.summary
  {
  }

  // ---------------------------------------------------------------- overlapping calls

  /** Where a call stands: the next step it will take. */
  datatype Phase =
    | Ready(question: string, answer: string)
    | Pushed
    | Over(over: nat)
    | Ranged(over: nat, overflow: seq<Message>)
    | Prior(over: nat, overflow: seq<Message>, prior: string)
    | Folded(over: nat, taken: nat, update: string)
    | Done

  /** `log`: every message ever pushed. `handed`: the ranges given to the summariser, one after the other. */
  datatype State = State(store: Store, calls: seq<Phase>, log: seq<Message>, handed: seq<Message>)

  datatype Step =
    | Begin(question: string, answer: string)
    | Push(i: nat)
    | Measure(i: nat)
    | ReadRange(i: nat)
    | ReadSummary(i: nat)
    | Summarize(i: nat, reply: Option<string>)
    | Trim(i: nat)
    | ExpireTurns
    | ExpireSummary
    | Reset

  const INITIAL := State(Store([], ""), [], [], [])

  predicate Enabled(s: State, step: Step) {
    match step
    case Push(i) => i < |s.calls| && s.calls[i].Ready?
    case Measure(i) => i < |s.calls| && s.calls[i].Pushed?
    case ReadRange(i) => i < |s.calls| && s.calls[i].Over?
    case ReadSummary(i) => i < |s.calls| && s.calls[i].Ranged?
    case Summarize(i, _) => i < |s.calls| && s.calls[i].Prior?
    case Trim(i) => i < |s.calls| && s.calls[i].Folded?
    case _ => true
  }

  function Apply(s: State, step: Step, maxTurns: int): State
    requires Enabled(s, step)
  {
    match step
    case Begin(q, a) => s.(calls := s.calls + [Ready(q, a)])
    case Push(i) =>
      var pair := Pair(s.calls[i].question, s.calls[i].answer);
      s.(store := s.store.(turns := s.store.turns + pair), calls := s.calls[i := Pushed], log := s.log + pair)
    case Measure(i) =>
      var over := |s.store.turns| - maxTurns * 2;
      s.(calls := s.calls[i := if over <= 0 then Done else Over(over)])
    case ReadRange(i) =>
      var over := s.calls[i].over;
      s.(calls := s.calls[i := Ranged(over, Head(s.store.turns, over))])
    case ReadSummary(i) =>
      s.(calls := s.calls[i := Prior(s.calls[i].over, s.calls[i].overflow, s.store.summary)])
    case Summarize(i, reply) =>
      var c := s.calls[i];
      s.(calls := s.calls[i := Folded(c.over, |c.overflow|, Summarized(c.prior, c.overflow, reply))],
        handed := s.handed + c.overflow)
    case Trim(i) =>
      var c := s.calls[i];
      s.(store := Store(Trimmed(s.store.turns, c.over), Written(s.store.summary, c.update)),
        calls := s.calls[i := Done])
    case ExpireTurns => s.(store := s.store.(turns := []))
    case ExpireSummary => s.(store := s.store.(summary := ""))
    case Reset => s.(store := Store([], ""))
  }

  predicate Run(s: State, steps: seq<Step>, maxTurns: int)
    decreases |steps|
  {
    steps == [] || (Enabled(s, steps[0]) && Run(Apply(s, steps[0], maxTurns), steps[1..], maxTurns))
  }

  function Exec(s: State, steps: seq<Step>, maxTurns: int): State
    requires Run(s, steps, maxTurns)
    decreases |steps|
  {
    if steps == [] then s else Exec(Apply(s, steps[0], maxTurns), steps[1..], maxTurns)
  }

  // ---------------------------------------------------------------- the window, in every interleaving

  /** Pushed, and not yet past its last step. */
  predicate Active(c: Phase) { !c.Ready? && !c.Done? }

  function InFlight(calls: seq<Phase>): nat {
    if calls == [] then 0 else (if Active(calls[0]) then 1 else 0) + InFlight(calls[1..])
  }

  lemma {:induction false} InFlightUpdate(calls: seq<Phase>, i: nat, c: Phase)
    requires i < |calls|
    ensures InFlight(calls[i := c]) + (if Active(calls[i]) then 1 else 0)
            == InFlight(calls) + (if Active(c) then 1 else 0)
  {
    if i == 0 {
      assert calls[0 := c][1..] == calls[1..];
    } else {
      InFlightUpdate(calls[1..], i - 1, c);
      assert calls[i := c][1..] == calls[1..][i - 1 := c];
    }
  }

  lemma {:induction false} InFlightAppend(calls: seq<Phase>, c: Phase)
    ensures InFlight(calls + [c]) == InFlight(calls) + (if Active(c) then 1 else 0)
  {
    if calls == [] {
      assert calls + [c] == [c];
    } else {
      InFlightAppend(calls[1..], c);
      assert (calls + [c])[1..] == calls[1..] + [c];
    }
  }

  predicate Alternating(ms: seq<Message>) {
    && |ms| % 2 == 0
    && forall k :: 0 <= k < |ms| ==> ms[k].role == if k % 2 == 0 then User else Assistant
  }

  predicate SuffixOf(tail: seq<Message>, all: seq<Message>) {
    |tail| <= |all| && tail == all[|all| - |tail|..]
  }

  predicate PendingTrim(c: Phase, excess: int) {
    (c.Over? || c.Ranged? || c.Prior? || c.Folded?) && c.over >= excess
  }

  /** Someone has yet to measure the list, or the list fits, or a pending trim cuts at least the excess. */
  predicate Watched(s: State, maxTurns: int) {
    || |s.store.turns| <= Budget(maxTurns)
    || (exists i :: 0 <= i < |s.calls| && s.calls[i].Pushed?)
    || (exists i :: 0 <= i < |s.calls| && PendingTrim(s.calls[i], |s.store.turns| - Budget(maxTurns)))
  }

  predicate EvenTrims(calls: seq<Phase>) {
    forall i :: 0 <= i < |calls| && PendingTrim(calls[i], 0) ==> calls[i].over >= 2 && calls[i].over % 2 == 0
  }

  predicate WindowInv(s: State, maxTurns: int) {
    && Alternating(s.log) && Alternating(s.store.turns) && SuffixOf(s.store.turns, s.log)
    && EvenTrims(s.calls)
    && |s.store.turns| <= Budget(maxTurns) + 2 * InFlight(s.calls)
  }

  lemma CutKeepsShape(turns: seq<Message>, log: seq<Message>, over: nat)
    requires Alternating(turns) && SuffixOf(turns, log) && over % 2 == 0
    ensures Alternating(Trimmed(turns, over)) && SuffixOf(Trimmed(turns, over), log)
  {
    var cut := Min(over, |turns|);
    forall k | 0 <= k < |turns| - cut ensures turns[cut..][k].role == if k % 2 == 0 then User else Assistant {
      assert turns[cut + k].role == if (cut + k) % 2 == 0 then User else Assistant;
    }
  }

  lemma PushKeepsShape(turns: seq<Message>, log: seq<Message>, question: string, answer: string)
    requires Alternating(turns) && Alternating(log) && SuffixOf(turns, log)
    ensures var pair := Pair(question, answer);
            Alternating(turns + pair) && Alternating(log + pair) && SuffixOf(turns + pair, log + pair)
  {
  }

  predicate Thinks(step: Step) {
    step.Measure? || step.ReadRange? || step.ReadSummary? || step.Summarize?
  }

  /** Steps of a call that leave the list alone. */
  lemma ThinkKeepsWindow(s: State, step: Step, maxTurns: int)
    requires WindowInv(s, maxTurns) && Enabled(s, step) && Thinks(step)
    ensures WindowInv(Apply(s, step, maxTurns), maxTurns)
  {
    var t := Apply(s, step, maxTurns);
    InFlightUpdate(s.calls, step.i, t.calls[step.i]);
  }

  lemma StepKeepsWindow(s: State, step: Step, maxTurns: int)
    requires WindowInv(s, maxTurns) && Enabled(s, step)
    ensures WindowInv(Apply(s, step, maxTurns), maxTurns)
  {
    if Thinks(step) {
      ThinkKeepsWindow(s, step, maxTurns);
    } else if step.Push? {
      InFlightUpdate(s.calls, step.i, Pushed);
      PushKeepsShape(s.store.turns, s.log, s.calls[step.i].question, s.calls[step.i].answer);
    } else if step.Trim? {
      InFlightUpdate(s.calls, step.i, Done);
      assert PendingTrim(s.calls[step.i], 0);
      CutKeepsShape(s.store.turns, s.log, s.calls[step.i].over);
    } else if step.Begin? {
      InFlightAppend(s.calls, Ready(step.question, step.answer));
    }
  }

  lemma StepKeepsWatched(s: State, step: Step, maxTurns: int)
    requires Watched(s, maxTurns) && Enabled(s, step)
    ensures Watched(Apply(s, step, maxTurns), maxTurns)
  {
    var t := Apply(s, step, maxTurns);
    if step.Push? {
      assert t.calls[step.i].Pushed?;
    } else if step.Measure? && t.calls[step.i].Over? {
      assert PendingTrim(t.calls[step.i], |t.store.turns| - Budget(maxTurns));
    } else if |t.store.turns| > Budget(maxTurns) {
      if i :| 0 <= i < |s.calls| && s.calls[i].Pushed? {
        assert t.calls[i].Pushed?;
      } else {
        var i :| 0 <= i < |s.calls| && PendingTrim(s.calls[i], |s.store.turns| - Budget(maxTurns));
        assert PendingTrim(t.calls[i], |t.store.turns| - Budget(maxTurns));
      }
    }
  }

  lemma {:induction false} RunKeepsWindow(s: State, steps: seq<Step>, maxTurns: int)
    requires WindowInv(s, maxTurns) && Watched(s, maxTurns) && Run(s, steps, maxTurns)
    ensures WindowInv(Exec(s, steps, maxTurns), maxTurns) && Watched(Exec(s, steps, maxTurns), maxTurns)
    decreases |steps|
  {
    if steps != [] {
      StepKeepsWindow(s, steps[0], maxTurns);
      StepKeepsWatched(s, steps[0], maxTurns);
      RunKeepsWindow(Apply(s, steps[0], maxTurns), steps[1..], maxTurns);
    }
  }

  /**
   * Main result for every interleaving, with expiry and reset anywhere: the live list is an even,
   * alternating suffix of what was pushed, at most one pair over budget per call in flight.
   */
  lemma WindowAlwaysBounded(steps: seq<Step>, maxTurns: int)
    requires Run(INITIAL, steps, maxTurns)
    ensures var s := Exec(INITIAL, steps, maxTurns);
            && Alternating(s.store.turns) && SuffixOf(s.store.turns, s.log)
            && |s.store.turns| <= Budget(maxTurns) + 2 * InFlight(s.calls)
            && Watched(s, maxTurns)
  {
    RunKeepsWindow(INITIAL, steps, maxTurns);
  }

  /** Once every call has returned, the list is within its budget again. */
  lemma QuietWindowInBudget(steps: seq<Step>, maxTurns: int)
    requires Run(INITIAL, steps, maxTurns)
    requires forall i :: 0 <= i < |Exec(INITIAL, steps, maxTurns).calls| ==>
               !Active(Exec(INITIAL, steps, maxTurns).calls[i])
    ensures |Exec(INITIAL, steps, maxTurns).store.turns| <= Budget(maxTurns)
  {
    WindowAlwaysBounded(steps, maxTurns);
    NoneInFlight(Exec(INITIAL, steps, maxTurns).calls);
  }

  lemma {:induction false} NoneInFlight(calls: seq<Phase>)
    requires forall i :: 0 <= i < |calls| ==> !Active(calls[i])
    ensures InFlight(calls) == 0
  {
    if calls != [] { NoneInFlight(calls[1..]); }
  }

  // ---------------------------------------------------------------- nothing is lost

  /** Between reading a range and trimming it. */
  predicate Reading(c: Phase) { c.Ranged? || c.Prior? || c.Folded? }

  predicate NoneReading(calls: seq<Phase>) {
    forall i :: 0 <= i < |calls| ==> !Reading(calls[i])
  }

  /** How many messages a reading call has read. */
  function Taken(c: Phase): nat
    requires Reading(c)
  {
    if c.Folded? then c.taken else |c.overflow|
  }

  /**
   * No range is read inside another call's read-to-trim section, no trim is longer than the call's own
   * range, and the turns key survives. Everything else may overlap.
   */
  predicate Orderly(s: State, step: Step)
    requires Enabled(s, step)
  {
    && !step.ExpireTurns? && !step.Reset?
    && (step.ReadRange? ==> NoneReading(s.calls))
    && (step.Trim? ==> Min(s.calls[step.i].over, |s.store.turns|) <= s.calls[step.i].taken)
  }

  predicate OrderlyRun(s: State, steps: seq<Step>, maxTurns: int)
    decreases |steps|
  {
    steps == [] ||
    (Enabled(s, steps[0]) && Orderly(s, steps[0]) && OrderlyRun(Apply(s, steps[0], maxTurns), steps[1..], maxTurns))
  }

  /** What a reading call has read is still the head of the list, and it is the only one. */
  predicate Consistent(s: State, i: nat)
    requires i < |s.calls|
  {
    var c, turns := s.calls[i], s.store.turns;
    Reading(c) ==>
      && Taken(c) <= c.over && Taken(c) <= |turns|
      && (forall j :: 0 <= j < |s.calls| && j != i ==> !Reading(s.calls[j]))
      && (!c.Folded? ==> c.overflow == turns[..Taken(c)])
      && s.log == s.handed + if c.Folded? then turns[c.taken..] else turns
  }

  predicate HistoryInv(s: State) {
    && (NoneReading(s.calls) ==> s.log == s.handed + s.store.turns)
    && forall i :: 0 <= i < |s.calls| ==> Consistent(s, i)
  }

  /** The call that takes a step keeps the history whole. */
  lemma OwnStep(s: State, step: Step, maxTurns: int)
    requires HistoryInv(s) && Enabled(s, step) && Orderly(s, step) && !step.Begin? && !step.ExpireSummary?
    ensures Consistent(Apply(s, step, maxTurns), step.i)
    ensures var t := Apply(s, step, maxTurns); NoneReading(t.calls) ==> t.log == t.handed + t.store.turns
  {
    var t := Apply(s, step, maxTurns);
    var i := step.i;
    assert Consistent(s, i);
    if !Reading(s.calls[i]) && (forall j :: 0 <= j < |t.calls| && j != i ==> !Reading(t.calls[j])) {
      forall j | 0 <= j < |s.calls| ensures !Reading(s.calls[j]) {
        if j != i { assert t.calls[j] == s.calls[j]; }
      }
      assert NoneReading(s.calls);
    }
  }

  lemma OtherCall(s: State, step: Step, maxTurns: int, j: nat)
    requires HistoryInv(s) && Enabled(s, step) && Orderly(s, step)
    requires j < |s.calls| && !step.ExpireSummary? && (step.Begin? || step.i != j)
    ensures Consistent(Apply(s, step, maxTurns), j)
  {
    var t := Apply(s, step, maxTurns);
    assert Consistent(s, j) && t.calls[j] == s.calls[j];
    if Reading(s.calls[j]) && !step.Begin? {
      assert !Reading(s.calls[step.i]);
      assert step.Push? || step.Measure?;
    }
  }

  lemma StepKeepsHistory(s: State, step: Step, maxTurns: int)
    requires HistoryInv(s) && Enabled(s, step) && Orderly(s, step)
    ensures HistoryInv(Apply(s, step, maxTurns))
  {
    var t := Apply(s, step, maxTurns);
    if step.ExpireSummary? {
      forall i | 0 <= i < |t.calls| ensures Consistent(t, i) { assert Consistent(s, i); }
    } else {
      if step.Begin? {
        if NoneReading(t.calls) {
          assert forall i :: 0 <= i < |s.calls| ==> s.calls[i] == t.calls[i];
        }
      } else {
        OwnStep(s, step, maxTurns);
      }
      forall j | 0 <= j < |t.calls| ensures Consistent(t, j) {
        if j < |s.calls| && (step.Begin? || step.i != j) { OtherCall(s, step, maxTurns, j); }
      }
    }
  }

  lemma {:induction false} RunKeepsHistory(s: State, steps: seq<Step>, maxTurns: int)
    requires HistoryInv(s) && OrderlyRun(s, steps, maxTurns)
    ensures Run(s, steps, maxTurns) && HistoryInv(Exec(s, steps, maxTurns))
    decreases |steps|
  {
    if steps != [] {
      StepKeepsHistory(s, steps[0], maxTurns);
      RunKeepsHistory(Apply(s, steps[0], maxTurns), steps[1..], maxTurns);
    }
  }

  /**
   * Main result, for orderly runs and every turn limit: the history is what was handed to the summariser,
   * each message once and in order, followed by the live list. The replies are arbitrary, failures included.
   */
  lemma NoMessageLost(steps: seq<Step>, maxTurns: int)
    requires OrderlyRun(INITIAL, steps, maxTurns)
    ensures Run(INITIAL, steps, maxTurns)
    ensures var s := Exec(INITIAL, steps, maxTurns);
            NoneReading(s.calls) ==> s.log == s.handed + s.store.turns
  {
    RunKeepsHistory(INITIAL, steps, maxTurns);
  }

  // ---------------------------------------------------------------- one roll-over at a time is orderly

  /** Rolling older turns into the summary: from an over-budget measurement to the trim. */
  predicate Rolling(c: Phase) { PendingTrim(c, 0) }

  predicate NoneRolling(calls: seq<Phase>) {
    forall i :: 0 <= i < |calls| ==> !Rolling(calls[i])
  }

  /** Calls whose roll-overs do not overlap, on a turns key that survives. */
  predicate OneAtATime(s: State, steps: seq<Step>, maxTurns: int)
    decreases |steps|
  {
    steps == [] ||
    (&& Enabled(s, steps[0]) && !steps[0].ExpireTurns? && !steps[0].Reset?
     && (steps[0].Measure? && |s.store.turns| > maxTurns * 2 ==> NoneRolling(s.calls))
     && OneAtATime(Apply(s, steps[0], maxTurns), steps[1..], maxTurns))
  }

  /** The only roll-over has measured no more than is there, and has read what it measured. */
  predicate Alone(s: State, i: nat)
    requires i < |s.calls|
  {
    var c := s.calls[i];
    Rolling(c) ==>
      && c.over <= |s.store.turns| && (Reading(c) ==> Taken(c) == c.over)
      && forall j :: 0 <= j < |s.calls| && j != i ==> !Rolling(s.calls[j])
  }

  predicate AllAlone(s: State) {
    forall i :: 0 <= i < |s.calls| ==> Alone(s, i)
  }

  lemma StepKeepsAlone(s: State, step: Step, maxTurns: int)
    requires maxTurns >= 0 && AllAlone(s) && Enabled(s, step) && !step.ExpireTurns? && !step.Reset?
    requires step.Measure? && |s.store.turns| > maxTurns * 2 ==> NoneRolling(s.calls)
    ensures Orderly(s, step) && AllAlone(Apply(s, step, maxTurns))
  {
    var t := Apply(s, step, maxTurns);
    if step.ReadRange? || step.Trim? {
      assert Alone(s, step.i) && Rolling(s.calls[step.i]);
      assert forall j :: 0 <= j < |s.calls| && j != step.i ==> !Reading(s.calls[j]);
    }
    forall i | 0 <= i < |t.calls| ensures Alone(t, i) {
      if i < |s.calls| { assert Alone(s, i); }
    }
  }

  /** Calls that do not overlap, or overlap only before they measure, make an orderly run. */
  lemma {:induction false} OneAtATimeIsOrderly(s: State, steps: seq<Step>, maxTurns: int)
    requires maxTurns >= 0 && AllAlone(s) && OneAtATime(s, steps, maxTurns)
    ensures OrderlyRun(s, steps, maxTurns)
    decreases |steps|
  {
    if steps != [] {
      StepKeepsAlone(s, steps[0], maxTurns);
      OneAtATimeIsOrderly(Apply(s, steps[0], maxTurns), steps[1..], maxTurns);
    }
  }

  // ---------------------------------------------------------------- one call is a run

  lemma {:induction false} Extend(s: State, steps: seq<Step>, step: Step, maxTurns: int)
    requires Run(s, steps, maxTurns) && Enabled(Exec(s, steps, maxTurns), step)
    ensures Run(s, steps + [step], maxTurns)
    ensures Exec(s, steps + [step], maxTurns) == Apply(Exec(s, steps, maxTurns), step, maxTurns)
    decreases |steps|
  {
    if steps == [] {
      assert ([] + [step])[1..] == [];
    } else {
      Extend(Apply(s, steps[0], maxTurns), steps[1..], step, maxTurns);
      assert (steps + [step])[1..] == steps[1..] + [step];
    }
  }

  function Append(question: string, answer: string, i: nat): seq<Step> {
    [Begin(question, answer), Push(i), Measure(i)]
  }

  function RollOver(i: nat, reply: Option<string>): seq<Step> {
    [ReadRange(i), ReadSummary(i), Summarize(i, reply), Trim(i)]
  }

  /** Without interleaving the steps of a call amount to `Memory.AppendTurn`. */
  lemma CallIsARun(s: State, question: string, answer: string, maxTurns: int, reply: Option<string>)
    ensures var i := |s.calls|;
            var steps := Append(question, answer, i)
                         + if |s.store.turns| + 2 > maxTurns * 2 then RollOver(i, reply) else [];
            && Run(s, steps, maxTurns)
            && Exec(s, steps, maxTurns).store == AfterTurn(s.store, question, answer, maxTurns, reply)
            && Exec(s, steps, maxTurns).calls == s.calls + [Done]
  {
    var i := |s.calls|;
    Extend(s, [], Begin(question, answer), maxTurns);
    Extend(s, [Begin(question, answer)], Push(i), maxTurns);
    Extend(s, [Begin(question, answer), Push(i)], Measure(i), maxTurns);
    var head := Append(question, answer, i);
    if |s.store.turns| + 2 > maxTurns * 2 {
      RollOverRun(s, head, i, reply, maxTurns);
    } else {
      assert head + [] == head;
    }
  }

  lemma RollOverRun(s: State, head: seq<Step>, i: nat, reply: Option<string>, maxTurns: int)
    requires Run(s, head, maxTurns)
    requires var m := Exec(s, head, maxTurns); i < |m.calls| && m.calls[i].Over?
    ensures Run(s, head + RollOver(i, reply), maxTurns)
    ensures var m, e := Exec(s, head, maxTurns), Exec(s, head + RollOver(i, reply), maxTurns);
            var over := m.calls[i].over;
            && e.store == Store(Trimmed(m.store.turns, over),
                                Written(m.store.summary, Summarized(m.store.summary, Head(m.store.turns, over), reply)))
            && e.calls == m.calls[i := Done]
  {
    var read := head + [ReadRange(i)] + [ReadSummary(i)];
    ReadTwice(s, head, i, maxTurns);
    FoldAndTrim(s, read, i, reply, maxTurns);
    RollOverIs(head, i, reply);
  }

  lemma RollOverIs(head: seq<Step>, i: nat, reply: Option<string>)
    ensures head + RollOver(i, reply)
         == head + [ReadRange(i)] + [ReadSummary(i)] + [Summarize(i, reply)] + [Trim(i)]
  {
  }

  lemma ReadTwice(s: State, head: seq<Step>, i: nat, maxTurns: int)
    requires Run(s, head, maxTurns)
    requires var m := Exec(s, head, maxTurns); i < |m.calls| && m.calls[i].Over?
    ensures var read := head + [ReadRange(i)] + [ReadSummary(i)];
            var m := Exec(s, head, maxTurns);
            var over := m.calls[i].over;
            && Run(s, read, maxTurns)
            && Exec(s, read, maxTurns)
               == m.(calls := m.calls[i := Prior(over, Head(m.store.turns, over), m.store.summary)])
  {
    Extend(s, head, ReadRange(i), maxTurns);
    Extend(s, head + [ReadRange(i)], ReadSummary(i), maxTurns);
  }

  lemma FoldAndTrim(s: State, head: seq<Step>, i: nat, reply: Option<string>, maxTurns: int)
    requires Run(s, head, maxTurns)
    requires var m := Exec(s, head, maxTurns); i < |m.calls| && m.calls[i].Prior?
    ensures var whole := head + [Summarize(i, reply)] + [Trim(i)];
            var m := Exec(s, head, maxTurns);
            var c := m.calls[i];
            && Run(s, whole, maxTurns)
            && Exec(s, whole, maxTurns).store == Store(Trimmed(m.store.turns, c.over),
                                                       Written(m.store.summary, Summarized(c.prior, c.overflow, reply)))
            && Exec(s, whole, maxTurns).calls == m.calls[i := Done]
  {
    Extend(s, head, Summarize(i, reply), maxTurns);
    Extend(s, head + [Summarize(i, reply)], Trim(i), maxTurns);
  }

  // ---------------------------------------------------------------- why one roll-over at a time

  ghost predicate Reachable(s: State, maxTurns: int) {
    exists steps :: Run(INITIAL, steps, maxTurns) && Exec(INITIAL, steps, maxTurns) == s
  }

  lemma Then(s: State, step: Step, maxTurns: int)
    requires Reachable(s, maxTurns) && Enabled(s, step)
    ensures Reachable(Apply(s, step, maxTurns), maxTurns)
  {
    var steps :| Run(INITIAL, steps, maxTurns) && Exec(INITIAL, steps, maxTurns) == s;
    Extend(INITIAL, steps, step, maxTurns);
  }

  function Two(): seq<Message> { Pair("q0", "a0") + Pair("q1", "a1") }
  function Three(): seq<Message> { Two() + Pair("q2", "a2") }

  /** Three calls have pushed before any of them measured. */
  lemma ThreePushed()
    ensures Reachable(State(Store(Three(), ""), [Pushed, Pushed, Pushed], Three(), []), 1)
  {
    var r0, r1, r2 := Ready("q0", "a0"), Ready("q1", "a1"), Ready("q2", "a2");
    assert Run(INITIAL, [], 1);
    assert Reachable(INITIAL, 1);
    Then(INITIAL, Begin("q0", "a0"), 1);
    assert [] + [r0] == [r0];
    Then(State(Store([], ""), [r0], [], []), Begin("q1", "a1"), 1);
    assert [r0] + [r1] == [r0, r1];
    Then(State(Store([], ""), [r0, r1], [], []), Begin("q2", "a2"), 1);
    assert [r0, r1] + [r2] == [r0, r1, r2];
    PushThree(r0, r1, r2);
  }

  lemma PushThree(r0: Phase, r1: Phase, r2: Phase)
    requires r0 == Ready("q0", "a0") && r1 == Ready("q1", "a1") && r2 == Ready("q2", "a2")
    requires Reachable(State(Store([], ""), [r0, r1, r2], [], []), 1)
    ensures Reachable(State(Store(Three(), ""), [Pushed, Pushed, Pushed], Three(), []), 1)
  {
    var p := Pair("q0", "a0");
    Then(State(Store([], ""), [r0, r1, r2], [], []), Push(0), 1);
    assert [r0, r1, r2][0 := Pushed] == [Pushed, r1, r2] && [] + p == p;
    Then(State(Store(p, ""), [Pushed, r1, r2], p, []), Push(1), 1);
    assert [Pushed, r1, r2][1 := Pushed] == [Pushed, Pushed, r2];
    Then(State(Store(Two(), ""), [Pushed, Pushed, r2], Two(), []), Push(2), 1);
    assert [Pushed, Pushed, r2][2 := Pushed] == [Pushed, Pushed, Pushed];
  }

  /** Two of them measure the same excess and read the same range. */
  lemma TwoRolling()
    ensures Reachable(State(Store(Three(), ""), [Prior(4, Two(), ""), Prior(4, Two(), ""), Pushed], Three(), []), 1)
  {
    ThreePushed();
    var st := Store(Three(), "");
    assert Head(Three(), 4) == Two();
    Then(State(st, [Pushed, Pushed, Pushed], Three(), []), Measure(0), 1);
    assert [Pushed, Pushed, Pushed][0 := Over(4)] == [Over(4), Pushed, Pushed];
    Then(State(st, [Over(4), Pushed, Pushed], Three(), []), Measure(1), 1);
    assert [Over(4), Pushed, Pushed][1 := Over(4)] == [Over(4), Over(4), Pushed];
    ReadBoth(st);
  }

  lemma ReadBoth(st: Store)
    requires st == Store(Three(), "") && Head(Three(), 4) == Two()
    requires Reachable(State(st, [Over(4), Over(4), Pushed], Three(), []), 1)
    ensures Reachable(State(st, [Prior(4, Two(), ""), Prior(4, Two(), ""), Pushed], Three(), []), 1)
  {
    var o, r, p := Over(4), Ranged(4, Two()), Prior(4, Two(), "");
    Then(State(st, [o, o, Pushed], Three(), []), ReadRange(0), 1);
    assert [o, o, Pushed][0 := r] == [r, o, Pushed];
    Then(State(st, [r, o, Pushed], Three(), []), ReadRange(1), 1);
    assert [r, o, Pushed][1 := r] == [r, r, Pushed];
    Then(State(st, [r, r, Pushed], Three(), []), ReadSummary(0), 1);
    assert [r, r, Pushed][0 := p] == [p, r, Pushed];
    Then(State(st, [p, r, Pushed], Three(), []), ReadSummary(1), 1);
    assert [p, r, Pushed][1 := p] == [p, p, Pushed];
  }

  /** Rolling over at once, they hand out that range twice, and nobody is handed the third pair, which disappears. */
  lemma OverlappingRollOversLose()
    ensures Reachable(State(Store([], ""), [Done, Done, Pushed], Three(), Two() + Two()), 1)
    ensures Three()[4] == Message(User, "q2") && Message(User, "q2") !in Two() + Two()
  {
    TwoRolling();
    FoldBoth(Prior(4, Two(), ""), Folded(4, 4, ""));
    TrimBoth(Folded(4, 4, ""));
  }

  lemma FoldBoth(p: Phase, f: Phase)
    requires p == Prior(4, Two(), "") && f == Folded(4, 4, "")
    requires Reachable(State(Store(Three(), ""), [p, p, Pushed], Three(), []), 1)
    ensures Reachable(State(Store(Three(), ""), [f, f, Pushed], Three(), Two() + Two()), 1)
  {
    Then(State(Store(Three(), ""), [p, p, Pushed], Three(), []), Summarize(0, None), 1);
    assert [p, p, Pushed][0 := f] == [f, p, Pushed] && [] + Two() == Two();
    Then(State(Store(Three(), ""), [f, p, Pushed], Three(), Two()), Summarize(1, None), 1);
    assert [f, p, Pushed][1 := f] == [f, f, Pushed];
  }

  lemma TrimBoth(f: Phase)
    requires f == Folded(4, 4, "")
    requires Reachable(State(Store(Three(), ""), [f, f, Pushed], Three(), Two() + Two()), 1)
    ensures Reachable(State(Store([], ""), [Done, Done, Pushed], Three(), Two() + Two()), 1)
  {
    assert Trimmed(Three(), 4) == Pair("q2", "a2") && Trimmed(Pair("q2", "a2"), 4) == [];
    Then(State(Store(Three(), ""), [f, f, Pushed], Three(), Two() + Two()), Trim(0), 1);
    assert [f, f, Pushed][0 := Done] == [Done, f, Pushed];
    Then(State(Store(Pair("q2", "a2"), ""), [Done, f, Pushed], Three(), Two() + Two()), Trim(1), 1);
    assert [Done, f, Pushed][1 := Done] == [Done, Done, Pushed];
  }
}
