/** The job event stream: `stream_job.gen` (app/api/jobs.py). */
module Jobs {
  import opened Options

  const POLL_SECONDS := 1.0
  const MAX_SECONDS := 600.0
  const MAX_POLLS := 600
  const TERMINAL_STATUSES: set<string> := {"completed", "failed"}

  datatype Job = Job(status: string, progress: Option<real>, error: Option<string>)

  /** The serialised row; a missing progress polls as 0. */
  datatype Payload = Payload(status: string, progress: real, error: Option<string>)

  datatype Event = Progress(payload: Payload) | Done(payload: Payload) | DoneMissing

  function PayloadOf(job: Job): Payload {
    Payload(job.status, if job.progress.Some? then job.progress.value else 0.0, job.error)
  }

  // ---------------------------------------------------------------- specification

  /** `rows(k)` is what read `k` of the job row sees, read 0 being the one before the stream opens. */
  predicate Goes(rows: nat -> Option<Job>, k: nat) {
    rows(k).Some? && rows(k).value.status !in TERMINAL_STATUSES && k < MAX_POLLS
  }

  /** The read that ends the stream: the first that finds no row, a terminal status, or the cap. */
  predicate IsStop(rows: nat -> Option<Job>, stop: nat) {
    !Goes(rows, stop) && forall k :: 0 <= k < stop ==> Goes(rows, k)
  }

  predicate Present(rows: nat -> Option<Job>, n: nat) {
    forall k :: 0 <= k < n ==> rows(k).Some?
  }

  /** The payload of the last of `n` reads. */
  function Last(rows: nat -> Option<Job>, n: nat): Option<Payload>
    requires Present(rows, n)
  {
    if n == 0 then None else Some(PayloadOf(rows(n - 1).value))
  }

  /** Progress sent after `n` reads: a payload is sent when it differs from the one before. */
  function Reported(rows: nat -> Option<Job>, n: nat): seq<Event>
    requires Present(rows, n)
  {
    if n == 0 then []
    else
      var p := PayloadOf(rows(n - 1).value);
      if Last(rows, n - 1) == Some(p) then Reported(rows, n - 1) else Reported(rows, n - 1) + [Progress(p)]
  }

  /** Everything the stream sends when read `stop` ends it. */
  function Events(rows: nat -> Option<Job>, stop: nat): seq<Event>
    requires Present(rows, stop)
  {
    match rows(stop)
    case None => Reported(rows, stop) + [DoneMissing]
    case Some(job) => Reported(rows, stop + 1) + [Done(PayloadOf(job))]
  }

  /** The payload is the row: status, progress and error. */
  predicate Shows(p: Payload, job: Job) {
    && p.status == job.status && p.error == job.error
    && (job.progress.Some? ==> p.progress == job.progress.value) && (job.progress.None? ==> p.progress == 0.0)
  }

  // ---------------------------------------------------------------- the program

  method Stream(rows: nat -> Option<Job>) returns (events: seq<Event>, polls: nat)
    requires rows(0).Some?
    ensures IsStop(rows, polls) && Present(rows, polls) && polls <= MAX_POLLS
    ensures events == Events(rows, polls)
  {
    events, polls := [], 0;
    var elapsed := 0.0;
    var lastPayload: Option<Payload> := None;
    var current := rows(0).value;
    while true
      invariant polls <= MAX_POLLS && elapsed == polls as real
      invariant Present(rows, polls + 1) && current == rows(polls).value
      invariant forall k :: 0 <= k < polls ==> Goes(rows, k)
      invariant events == Reported(rows, polls) && lastPayload == Last(rows, polls)
      decreases MAX_POLLS - polls
    {
      var payload := PayloadOf(current);
      if lastPayload != Some(payload) {
        events := events + [Progress(payload)];
        lastPayload := Some(payload);
      }
      assert events == Reported(rows, polls + 1);
      if current.status in TERMINAL_STATUSES || elapsed >= MAX_SECONDS {
        events := events + [Done(payload)];
        return;
      }
      elapsed := elapsed + POLL_SECONDS;
      polls := polls + 1;
      if rows(polls).None? {
        events := events + [DoneMissing];
        return;
      }
      current := rows(polls).value;
    }
  }

  /** The endpoint: a job that is not there is a 404 before any stream opens. */
  method StreamJob(rows: nat -> Option<Job>) returns (response: Option<seq<Event>>)
    ensures response.None? <==> rows(0).None?
    ensures response.Some? ==>
              exists stop :: IsStop(rows, stop) && Present(rows, stop) && response.value == Events(rows, stop)
  {
    if rows(0).None? { return None; }
    var events, polls := Stream(rows);
    response := Some(events);
  }

  // ---------------------------------------------------------------- what a listener can rely on

  function Observed(rows: nat -> Option<Job>, n: nat): seq<Payload>
    requires Present(rows, n)
  {
    seq(n, k requires 0 <= k < n => PayloadOf(rows(k).value))
  }

  /** Every progress event shows a row that was read. */
  lemma {:induction false} ReportedShows(rows: nat -> Option<Job>, n: nat, k: nat) returns (j: nat)
    requires Present(rows, n) && k < |Reported(rows, n)|
    ensures j < n && Reported(rows, n)[k].Progress? && Shows(Reported(rows, n)[k].payload, rows(j).value)
  {
    if k < |Reported(rows, n - 1)| { j := ReportedShows(rows, n - 1, k); } else { j := n - 1; }
  }

  /** Adjacent repeats collapsed. */
  function Collapse(ps: seq<Payload>): seq<Payload> {
    if |ps| <= 1 then ps
    else
      var init := ps[..|ps| - 1];
      if ps[|ps| - 1] == ps[|ps| - 2] then Collapse(init) else Collapse(init) + [ps[|ps| - 1]]
  }

  function Reports(ps: seq<Payload>): seq<Event> {
    seq(|ps|, k requires 0 <= k < |ps| => Progress(ps[k]))
  }

  /** The progress events are the observed payloads with adjacent repeats collapsed. */
  lemma {:induction false} ReportedIsCollapse(rows: nat -> Option<Job>, n: nat)
    requires Present(rows, n)
    ensures Reported(rows, n) == Reports(Collapse(Observed(rows, n)))
  {
    if n > 0 {
      ReportedIsCollapse(rows, n - 1);
      var seen := Observed(rows, n);
      assert seen[..n - 1] == Observed(rows, n - 1);
      if n > 1 {
        var c, p := Collapse(seen[..n - 1]), seen[n - 1];
        assert Reports(c + [p]) == Reports(c) + [Progress(p)];
      }
    }
  }

  predicate NoAdjacentRepeat(ps: seq<Payload>) {
    forall k :: 1 <= k < |ps| ==> ps[k] != ps[k - 1]
  }

  function Changes(ps: seq<Payload>): nat {
    if |ps| <= 1 then 0 else Changes(ps[..|ps| - 1]) + if ps[|ps| - 1] != ps[|ps| - 2] then 1 else 0
  }

  /** One report for the first row and one for every change, the last one being the last row. */
  lemma {:induction false} CollapseReportsChanges(ps: seq<Payload>)
    requires ps != []
    ensures var c := Collapse(ps);
            && |c| == 1 + Changes(ps) <= |ps|
            && NoAdjacentRepeat(c) && c[0] == ps[0] && c[|c| - 1] == ps[|ps| - 1]
  {
    if |ps| > 1 { CollapseReportsChanges(ps[..|ps| - 1]); }
  }

  predicate IsDone(e: Event) { e.Done? || e.DoneMissing? }

  predicate OneDoneAtTheEnd(events: seq<Event>) {
    events != [] && forall k :: 0 <= k < |events| ==> (IsDone(events[k]) <==> k == |events| - 1)
  }

  /** Exactly one done event, at the end, after at most 600 re-reads and within 602 events. */
  lemma StreamEndsOnce(rows: nat -> Option<Job>, stop: nat)
    requires rows(0).Some? && IsStop(rows, stop) && Present(rows, stop)
    ensures stop <= MAX_POLLS
    ensures OneDoneAtTheEnd(Events(rows, stop)) && 2 <= |Events(rows, stop)| <= MAX_POLLS + 2
  {
    assert stop > 0 ==> Goes(rows, stop - 1);
    ReportedSize(rows, if rows(stop).None? then stop else stop + 1);
  }

  /**
   * The stream goes on while the job is neither completed nor failed, for 600 re-reads at most, and its last
   * event shows the row it ended at.
   */
  lemma StreamTells(rows: nat -> Option<Job>, stop: nat)
    requires rows(0).Some? && IsStop(rows, stop) && Present(rows, stop)
    ensures forall k :: 0 <= k < stop ==> !Ended(rows(k).value)
    ensures var events := Events(rows, stop);
            var last := events[|events| - 1];
            match rows(stop)
            case None => last == DoneMissing
            case Some(job) => last.Done? && Shows(last.payload, job) && (stop == 600 || Ended(job))
  {
    assert stop > 0 ==> Goes(rows, stop - 1);
    forall k | 0 <= k < stop ensures !Ended(rows(k).value) { assert Goes(rows, k); }
  }

  predicate Ended(job: Job) { job.status == "completed" || job.status == "failed" }

  lemma ReportedSize(rows: nat -> Option<Job>, n: nat)
    requires Present(rows, n) && n > 0
    ensures 1 <= |Reported(rows, n)| <= n
    ensures forall k :: 0 <= k < |Reported(rows, n)| ==> Reported(rows, n)[k].Progress?
  {
    ReportedIsCollapse(rows, n);
    CollapseReportsChanges(Observed(rows, n));
  }
}
