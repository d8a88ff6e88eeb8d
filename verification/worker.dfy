/** The loop of `run_worker` in app/worker.py as a step function.

    One iteration reads the shutdown flag; if it is clear it claims the
    oldest pending job, runs the handler on it and records DONE or FAILED;
    with nothing to claim it waits up to `PollTicks` ticks, reading the flag
    before each. The handler (`process_job`), the clock and the flag are
    inputs of the iteration; signals, `time.sleep` and printing are not
    modelled. */
module Worker {
  import opened Wrappers
  import opened JobStore

  /** A raised exception: its class name and its message `str(e)`. */
  datatype Exception = Exception(typeName: string, message: string)

  /** The `error` recorded for a failed job: `"<Type>: <msg>"`. */
  function ErrorMessage(e: Exception): (m: string)
    ensures |m| == |e.typeName| + 2 + |e.message|
    ensures m[..|e.typeName|] == e.typeName
    ensures m[|e.typeName|..|e.typeName| + 2] == ": "
    ensures m[|e.typeName| + 2..] == e.message
  {
    e.typeName + ": " + e.message
  }

  /** The index of the first `:` in `s`, if any. */
  function FirstColon(s: string): (r: Option<nat>)
    ensures r.None? <==> ':' !in s
    ensures r.Some? ==> r.value < |s| && s[r.value] == ':' && ':' !in s[..r.value]
  {
    if |s| == 0 then None
    else if s[0] == ':' then Some(0)
    else
      match FirstColon(s[1..])
      case None => None
      case Some(i) =>
        assert s[..i + 1] == [s[0]] + s[1..][..i];
        Some(i + 1)
  }

  /** Reads a recorded error back as the exception it describes: the type
      name up to the first `:`, then `": "`, then the message. */
  function ParseErrorMessage(m: string): (r: Option<Exception>)
    ensures r.Some? ==> ErrorMessage(r.value) == m && ':' !in r.value.typeName
  {
    match FirstColon(m)
    case None => None
    case Some(i) =>
      if i + 1 < |m| && m[i + 1] == ' ' then
        var e := Exception(m[..i], m[i + 2..]);
        assert m == m[..i] + ": " + m[i + 2..];
        Some(e)
      else None
  }

  /** For a type name without `:`, the recorded error names the exception's
      type and message exactly. A class declared with `class` has an
      identifier for a name, so this covers the exceptions the job handler
      and the store raise. A name with `:` can only come from `type(...)` or
      an assigned `__name__`. */
  lemma ErrorMessageRoundTrip(e: Exception)
    requires ':' !in e.typeName
    ensures ParseErrorMessage(ErrorMessage(e)) == Some(e)
  {
    var m := ErrorMessage(e);
    var n := |e.typeName|;
    assert m[n] == ':' && m[n + 1] == ' ';
    assert m[..n] == e.typeName;
    assert ':' !in m[..n];
  }

  /** The idle wait sleeps at most this many ticks of half a second each. */
  const PollTicks: nat := 4

  /** The idle wait: the flag is read before each tick and the wait stops at
      the first read that finds it set. The result is the number of ticks slept. */
  function Wait(flag: nat -> bool): (n: nat)
    ensures n <= PollTicks
    ensures forall k :: 0 <= k < n ==> !flag(k)
    ensures n < PollTicks ==> flag(n)
  {
    WaitFrom(flag, 0)
  }

  function WaitFrom(flag: nat -> bool, k: nat): (n: nat)
    requires k <= PollTicks
    ensures k <= n <= PollTicks
    ensures forall i :: k <= i < n ==> !flag(i)
    ensures n < PollTicks ==> flag(n)
    decreases PollTicks - k
  {
    if k == PollTicks || flag(k) then k else WaitFrom(flag, k + 1)
  }

  /** What the environment supplies to one loop iteration. */
  datatype Iteration = Iteration(
    shutdown: bool,                              // the flag at the top of the loop
    claimedAt: Timestamp,                        // the clock read by `claim_next_job`
    handler: Job -> Result<string, Exception>,   // `process_job`: a result path or a raised exception
    finishedAt: Timestamp,                       // the clock read by `update_job`
    tickFlag: nat -> bool)                       // the flag read before each sleep tick

  datatype Event = Halted | Idle(sleeps: nat) | Processed(id: string, status: string)

  datatype StepResult = StepResult(event: Event, table: Table)

  /** An idle wait cut short because the flag was found set. */
  predicate BrokeOnFlag(e: Event) {
    e.Idle? && e.sleeps < PollTicks
  }

  /** After this event the loop goes round again. */
  predicate Continues(e: Event) {
    !e.Halted? && !BrokeOnFlag(e)
  }

  function DoneFields(path: string): map<string, Value> {
    map["status" := Text(DONE), "result_path" := Text(path)]
  }

  function FailedFields(message: string): map<string, Value> {
    map["status" := Text(FAILED), "error" := Text(message)]
  }

  /** Iteration `it` took the oldest pending row `i` of `t`, ran the handler
      on the claimed (RUNNING) job and left row `i` DONE with the handler's
      result or FAILED with the exception's message; all other rows are as
      they were. */
  predicate Completed(t: Table, it: Iteration, i: int, r: StepResult) {
    && IsOldestPending(t, i)
    && |r.table| == |t|
    && (forall k :: 0 <= k < |t| && k != i ==> r.table[k] == t[k])
    && var after := r.table[i];
       && after.id == t[i].id
       && after.payload == t[i].payload
       && after.createdAt == t[i].createdAt
       && after.updatedAt == it.finishedAt
       && match it.handler(t[i].(status := RUNNING, updatedAt := it.claimedAt))
          case Success(path) =>
            && r.event == Processed(t[i].id, DONE)
            && after.status == DONE && after.resultPath == Some(path) && after.error == t[i].error
          case Failure(e) =>
            && r.event == Processed(t[i].id, FAILED)
            && after.status == FAILED && after.error == Some(ErrorMessage(e)) && after.resultPath == t[i].resultPath
  }

  /** One iteration of the `while not _shutdown_requested` loop. */
  function Step(t: Table, it: Iteration): (r: StepResult)
    requires UniqueIds(t)
    ensures it.shutdown ==> r == StepResult(Halted, t)
    ensures !it.shutdown && !HasPending(t) ==> r == StepResult(Idle(Wait(it.tickFlag)), t)
    ensures !it.shutdown && HasPending(t) ==> exists i :: Completed(t, it, i, r)
    ensures |r.table| == |t|
    ensures forall k :: 0 <= k < |t| ==> r.table[k].id == t[k].id
    ensures forall k :: 0 <= k < |t| && t[k].status != PENDING ==> r.table[k] == t[k]
    ensures UniqueIds(r.table)
    ensures r.event.Processed? ==>
      && IsTerminal(r.event.status)
      && r.event.id in PendingIds(t)
      && PendingIds(r.table) == PendingIds(t) - {r.event.id}
    ensures !r.event.Processed? ==> r.table == t
  {
    if it.shutdown then StepResult(Halted, t)
    else
      var c := ClaimNextJob(t, it.claimedAt);
      match c.job
      case None => StepResult(Idle(Wait(it.tickFlag)), c.table)
      case Some(job) =>
        var i :| ClaimedRow(t, it.claimedAt, i, c);
        var fields := match it.handler(job)
          case Success(path) => DoneFields(path)
          case Failure(e) => FailedFields(ErrorMessage(e));
        var u := UpdateJob(c.table, job.id, fields, it.finishedAt);
        assert job.id in Ids(c.table) && AllowedUpdates(fields) != map[] by {
          assert c.table[i].id == job.id;
          assert "status" in AllowedUpdates(fields);
        }
        var r := StepResult(Processed(job.id, fields["status"].s), u.value);
        FinishFrame(t, c.table, u.value, i, job, fields, it.finishedAt);
        assert Completed(t, it, i, r);
        r
  }

  /** The terminal write touches only the claimed row. */
  lemma FinishFrame(t: Table, t1: Table, t2: Table, i: int, job: Job,
                    fields: map<string, Value>, now: Timestamp)
    requires UniqueIds(t)
    requires 0 <= i < |t| && t[i].status == PENDING
    requires t1 == t[i := job] && job.id == t[i].id && job.status == RUNNING
    requires |t2| == |t1|
    requires forall k :: 0 <= k < |t1| ==> UpdatedRow(t1[k], t2[k], job.id, fields, now)
    requires "status" in fields && (fields["status"] == Text(DONE) || fields["status"] == Text(FAILED))
    ensures forall k :: 0 <= k < |t| && k != i ==> t2[k] == t[k]
    ensures forall k :: 0 <= k < |t| ==> t2[k].id == t[k].id
    ensures UniqueIds(t2)
    ensures PendingIds(t2) == PendingIds(t) - {job.id}
  {
    assert forall k :: 0 <= k < |t| && k != i ==> t[k].id != job.id;
    assert t2[i].status != PENDING;
    forall x | x in PendingIds(t) - {job.id} ensures x in PendingIds(t2) {
      var k :| 0 <= k < |t| && t[k].status == PENDING && x == t[k].id;
      assert k != i && t2[k] == t[k];
    }
  }

  /** The events of the iterations run and the table they leave. */
  datatype Trace = Trace(events: seq<Event>, table: Table)

  /** `run_worker` over the iterations `iters`: it stops when the flag is
      found set at the top of the loop, or after an idle wait that broke on
      the flag (the flag stays set, so the loop test then fails). */
  function Run(t: Table, iters: seq<Iteration>): (r: Trace)
    requires UniqueIds(t)
    ensures |r.events| <= |iters|
    decreases |iters|
  {
    if |iters| == 0 then Trace([], t)
    else
      var s := Step(t, iters[0]);
      if s.event.Halted? then Trace([], t)
      else if BrokeOnFlag(s.event) then Trace([s.event], s.table)
      else
        var rest := Run(s.table, iters[1..]);
        Trace([s.event] + rest.events, rest.table)
  }
}
