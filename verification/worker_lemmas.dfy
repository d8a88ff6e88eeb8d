/** Properties of whole worker runs: shutdown is honoured, a failing
    handler never ends the loop, every claimed job ends terminal, no job
    is claimed twice, and the lifecycle invariant is kept. */
module WorkerLemmas {
  import opened Wrappers
  import opened JobStore
  import opened Worker
  import Report

  /** No event comes from iteration `k` or later once iteration `k` saw the flag set. */
  predicate StopsAtShutdown(events: seq<Event>, iters: seq<Iteration>) {
    forall k :: 0 <= k < |iters| && iters[k].shutdown ==> |events| <= k
  }

  /** An idle wait cut short by the flag is the last event. */
  predicate BrokenWaitIsLast(events: seq<Event>) {
    forall k :: 0 <= k < |events| && BrokeOnFlag(events[k]) ==> k == |events| - 1
  }

  /** One iteration of the induction below: an iteration that saw the flag
      clear and goes round again is followed by the later iterations' events. */
  lemma PrependContinued(e: Event, rest: seq<Event>, iters: seq<Iteration>)
    requires |iters| > 0 && !iters[0].shutdown && Continues(e)
    requires StopsAtShutdown(rest, iters[1..]) && BrokenWaitIsLast(rest)
    ensures StopsAtShutdown([e] + rest, iters)
    ensures BrokenWaitIsLast([e] + rest)
  {
    forall k | 0 <= k < |iters| && iters[k].shutdown ensures |[e] + rest| <= k {
      assert k > 0 && iters[1..][k - 1] == iters[k];
    }
    var events := [e] + rest;
    forall k | 0 < k < |events| ensures events[k] == rest[k - 1] { }
  }

  /** Once the flag is set at the top of iteration `k`, no iteration from
      `k` on runs; and an idle wait that broke on the flag is the last event. */
  lemma {:induction false} RunHonoursShutdown(t: Table, iters: seq<Iteration>)
    requires UniqueIds(t)
    ensures StopsAtShutdown(Run(t, iters).events, iters)
    ensures BrokenWaitIsLast(Run(t, iters).events)
    decreases |iters|
  {
    if |iters| > 0 {
      var s := Step(t, iters[0]);
      if Continues(s.event) {
        RunHonoursShutdown(s.table, iters[1..]);
        var rest := Run(s.table, iters[1..]).events;
        PrependContinued(s.event, rest, iters);
        assert Run(t, iters).events == [s.event] + rest;
      } else if !s.event.Halted? {
        assert Run(t, iters).events == [s.event];
      }
    }
  }

  /** A run that ended before its last iteration ended because of the flag:
      the next iteration saw it at the loop top, or the last event is a wait
      it cut short. */
  predicate StoppedOnFlag(events: seq<Event>, iters: seq<Iteration>) {
    || |events| >= |iters|
    || iters[|events|].shutdown
    || (|events| > 0 && BrokeOnFlag(events[|events| - 1]))
  }

  /** One iteration of the induction below. */
  lemma PrependStopped(e: Event, rest: seq<Event>, iters: seq<Iteration>)
    requires |iters| > 0 && StoppedOnFlag(rest, iters[1..])
    ensures StoppedOnFlag([e] + rest, iters)
  {
    var events := [e] + rest;
    if |rest| < |iters[1..]| {
      assert iters[1..][|rest|] == iters[|events|];
    }
    if |rest| > 0 {
      assert events[|events| - 1] == rest[|rest| - 1];
    }
  }

  /** The converse of the lemma above: the loop runs every iteration it is
      given unless the flag stops it. */
  lemma {:induction false} RunStopsOnlyOnFlag(t: Table, iters: seq<Iteration>)
    requires UniqueIds(t)
    ensures StoppedOnFlag(Run(t, iters).events, iters)
    decreases |iters|
  {
    if |iters| > 0 {
      var s := Step(t, iters[0]);
      if Continues(s.event) {
        RunStopsOnlyOnFlag(s.table, iters[1..]);
        var rest := Run(s.table, iters[1..]).events;
        PrependStopped(s.event, rest, iters);
        assert Run(t, iters).events == [s.event] + rest;
      } else if s.event.Halted? {
        assert iters[0].shutdown;
      } else {
        assert Run(t, iters).events == [s.event];
      }
    }
  }

  /** The flag is clear at the top of the iteration and before every tick. */
  ghost predicate FlagClear(it: Iteration) {
    !it.shutdown && forall n :: !it.tickFlag(n)
  }

  /** The flag is never set during the iterations `iters`. */
  ghost predicate FlagNeverSet(iters: seq<Iteration>) {
    forall it :: it in iters ==> FlagClear(it)
  }

  /** Every iteration processed a job or waited out all its ticks. */
  predicate RanOrWaited(events: seq<Event>) {
    forall k :: 0 <= k < |events| ==> events[k].Processed? || events[k] == Idle(PollTicks)
  }

  /** The first iteration of a run with the flag never set goes round again
      having processed a job or waited the full time. */
  lemma FirstStepRuns(t: Table, iters: seq<Iteration>)
    requires UniqueIds(t) && |iters| > 0
    requires FlagNeverSet(iters)
    ensures FlagNeverSet(iters[1..])
    ensures RanOrWaited([Step(t, iters[0]).event])
    ensures Continues(Step(t, iters[0]).event)
  {
    assert iters[0] in iters;
    assert !iters[0].tickFlag(Wait(iters[0].tickFlag));
    forall it | it in iters[1..] ensures FlagClear(it) {
      assert it in iters;
    }
  }

  lemma RanOrWaitedConcat(a: seq<Event>, b: seq<Event>)
    requires RanOrWaited(a) && RanOrWaited(b)
    ensures RanOrWaited(a + b)
  {
  }

  /** With the flag never set, every iteration runs, whatever the handler
      returns: a failing job does not end the loop. */
  lemma {:induction false} RunWithoutShutdown(t: Table, iters: seq<Iteration>)
    requires UniqueIds(t)
    requires FlagNeverSet(iters)
    ensures |Run(t, iters).events| == |iters|
    ensures RanOrWaited(Run(t, iters).events)
    decreases |iters|
  {
    if |iters| > 0 {
      var s := Step(t, iters[0]);
      FirstStepRuns(t, iters);
      RunWithoutShutdown(s.table, iters[1..]);
      var rest := Run(s.table, iters[1..]).events;
      RanOrWaitedConcat([s.event], rest);
      assert Run(t, iters).events == [s.event] + rest;
    }
  }

  /** Rows that are not PENDING keep their contents through a whole run. */
  lemma {:induction false} RunKeepsSettledRows(t: Table, iters: seq<Iteration>)
    requires UniqueIds(t)
    ensures |Run(t, iters).table| == |t|
    ensures forall k :: 0 <= k < |t| ==> Run(t, iters).table[k].id == t[k].id
    ensures forall k :: 0 <= k < |t| && t[k].status != PENDING ==> Run(t, iters).table[k] == t[k]
    decreases |iters|
  {
    if |iters| > 0 {
      var s := Step(t, iters[0]);
      if Continues(s.event) {
        RunKeepsSettledRows(s.table, iters[1..]);
      }
    }
  }

  /** Every processed job reported a terminal status and was PENDING in `t`. */
  predicate ProcessedFrom(events: seq<Event>, t: Table) {
    forall k :: 0 <= k < |events| && events[k].Processed? ==>
      IsTerminal(events[k].status) && events[k].id in PendingIds(t)
  }

  /** No job is processed twice. */
  predicate DistinctProcessed(events: seq<Event>) {
    forall a, b :: 0 <= a < b < |events| && events[a].Processed? && events[b].Processed? ==>
      events[a].id != events[b].id
  }

  /** Every processed job's row carries the status the event reported. */
  predicate Recorded(events: seq<Event>, t: Table) {
    forall k :: 0 <= k < |events| && events[k].Processed? ==>
      exists i :: 0 <= i < |t| && t[i].id == events[k].id && t[i].status == events[k].status
  }

  /** Each job a run processes was PENDING when the run began, ends in a
      terminal state, and is processed only once. */
  lemma {:induction false} RunClaimsEachJobOnce(t: Table, iters: seq<Iteration>)
    requires UniqueIds(t)
    ensures ProcessedFrom(Run(t, iters).events, t)
    ensures DistinctProcessed(Run(t, iters).events)
    decreases |iters|
  {
    if |iters| > 0 {
      var s := Step(t, iters[0]);
      if Continues(s.event) {
        RunClaimsEachJobOnce(s.table, iters[1..]);
        var rest := Run(s.table, iters[1..]).events;
        PrependProcessed(s.event, rest, t, s.table);
        assert Run(t, iters).events == [s.event] + rest;
      }
    }
  }

  /** One iteration of the induction above: the job an iteration processes
      leaves the pending set, so later iterations cannot process it again. */
  lemma PrependProcessed(e: Event, rest: seq<Event>, t: Table, t1: Table)
    requires ProcessedFrom(rest, t1) && DistinctProcessed(rest)
    requires PendingIds(t1) <= PendingIds(t)
    requires e.Processed? ==> IsTerminal(e.status) && e.id in PendingIds(t) && e.id !in PendingIds(t1)
    ensures ProcessedFrom([e] + rest, t)
    ensures DistinctProcessed([e] + rest)
  {
    var events := [e] + rest;
    forall k | 0 < k < |events| ensures events[k] == rest[k - 1] { }
  }

  /** One iteration of the induction below: a processed job whose row still
      holds its status is recorded, ahead of the later iterations' jobs. */
  lemma PrependRecorded(e: Event, rest: seq<Event>, t: Table)
    requires Recorded(rest, t)
    requires e.Processed? ==> exists i :: 0 <= i < |t| && t[i].id == e.id && t[i].status == e.status
    ensures Recorded([e] + rest, t)
  {
    var events := [e] + rest;
    forall k | 0 < k < |events| ensures events[k] == rest[k - 1] { }
  }

  /** After a run, every job it processed is still in the state the
      iteration recorded: later iterations never touch it again. */
  lemma {:induction false} RunRecordsOutcomes(t: Table, iters: seq<Iteration>)
    requires UniqueIds(t)
    ensures Recorded(Run(t, iters).events, Run(t, iters).table)
    decreases |iters|
  {
    if |iters| > 0 {
      var s := Step(t, iters[0]);
      if Continues(s.event) {
        RunRecordsOutcomes(s.table, iters[1..]);
        RunKeepsSettledRows(s.table, iters[1..]);
        var rest := Run(s.table, iters[1..]);
        if s.event.Processed? {
          var j :| Completed(t, iters[0], j, s);
          assert s.table[j].id == s.event.id && s.table[j].status == s.event.status;
          assert rest.table[j] == s.table[j];
        }
        PrependRecorded(s.event, rest.events, rest.table);
        assert Run(t, iters) == Trace([s.event] + rest.events, rest.table);
      } else if s.event.Idle? {
        assert Run(t, iters).events == [s.event];
      }
    }
  }

  /** A step keeps the lifecycle invariant: the processed row becomes DONE
      with a result and no error, or FAILED with an error and no result. */
  lemma StepPreservesWellFormed(t: Table, it: Iteration)
    requires WellFormed(t)
    ensures WellFormed(Step(t, it).table)
  {
    var s := Step(t, it);
    if s.event.Processed? {
      var i :| Completed(t, it, i, s);
      assert WellFormedJob(t[i]);
      assert WellFormedJob(s.table[i]);
    }
  }

  lemma {:induction false} RunPreservesWellFormed(t: Table, iters: seq<Iteration>)
    requires WellFormed(t)
    ensures WellFormed(Run(t, iters).table)
    decreases |iters|
  {
    if |iters| > 0 {
      var s := Step(t, iters[0]);
      StepPreservesWellFormed(t, iters[0]);
      if Continues(s.event) {
        RunPreservesWellFormed(s.table, iters[1..]);
      }
    }
  }

  /** Enqueue one job on a table with nothing pending, then run one
      iteration: the job is DONE with the handler's result, or FAILED with
      the exception's message, and everything else is as created. */
  lemma EnqueueThenWork(t: Table, id: string, payload: Payload, now: Timestamp, it: Iteration)
    requires UniqueIds(t)
    requires !HasPending(t)
    requires id !in Ids(t)
    requires !it.shutdown
    ensures CreateJob(t, id, payload, now).Success?
    ensures var t1 := CreateJob(t, id, payload, now).value;
      UniqueIds(t1) &&
      var t2 := Step(t1, it).table;
      match it.handler(Job(id, RUNNING, payload, None, None, now, it.claimedAt))
      case Success(path) => GetJob(t2, id) == Some(Job(id, DONE, payload, Some(path), None, now, it.finishedAt))
      case Failure(e) => GetJob(t2, id) == Some(Job(id, FAILED, payload, None, Some(ErrorMessage(e)), now, it.finishedAt))
  {
    var t1 := CreateJob(t, id, payload, now).value;
    EnqueueOnIdle(t, id, payload, now);
    var s := Step(t1, it);
    var i :| Completed(t1, it, i, s);
    assert i == |t|;
    assert GetJob(s.table, id) == Some(s.table[i]);
  }

  /** A job enqueued when nothing is pending is the only PENDING row, in
      the last place. */
  lemma EnqueueOnIdle(t: Table, id: string, payload: Payload, now: Timestamp)
    requires UniqueIds(t)
    requires !HasPending(t)
    requires id !in Ids(t)
    ensures CreateJob(t, id, payload, now).Success?
    ensures var t1 := CreateJob(t, id, payload, now).value;
      && UniqueIds(t1)
      && HasPending(t1)
      && forall i :: 0 <= i < |t1| && t1[i].status == PENDING ==> i == |t|
  {
    var t1 := CreateJob(t, id, payload, now).value;
    assert forall k :: 0 <= k < |t| ==> t1[k] == t[k] && t[k].id in Ids(t);
    assert t1[|t|].status == PENDING;
  }

  /** A handler that returns `process_job`'s report path (its success path):
      the job is recorded DONE with the path of its own report, from which
      its id can be read back. */
  lemma ReportHandlerRecordsOwnPath(t: Table, it: Iteration, render: Timestamp -> string, processedAt: Timestamp)
    requires UniqueIds(t)
    requires forall j :: it.handler(j) == Success(Report.ProcessJob(j, render, processedAt).path)
    ensures Step(t, it).event.Processed? ==>
      exists i :: 0 <= i < |t| && (
        && Step(t, it).table[i].id == Step(t, it).event.id
        && Step(t, it).event.status == DONE
        && Step(t, it).table[i].resultPath == Some(Report.ReportPath(Step(t, it).event.id))
        && Report.ReportJobId(Step(t, it).table[i].resultPath.value) == Some(Step(t, it).event.id))
  {
    var s := Step(t, it);
    if s.event.Processed? {
      var i :| Completed(t, it, i, s);
      var claimed := t[i].(status := RUNNING, updatedAt := it.claimedAt);
      assert it.handler(claimed) == Success(Report.ReportPath(t[i].id));
      Report.ReportPathRoundTrip(t[i].id);
    }
  }
}
