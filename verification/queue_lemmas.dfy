/** Properties of the queue operations of app/db.py that relate several
    calls: create-then-get, repeated claims, FIFO order, the lifecycle
    invariant and idempotent terminal writes. */
module QueueLemmas {
  import opened Wrappers
  import opened JobStore

  /** A fresh id is inserted; `get_job` then returns a PENDING record whose
      payload is the one given, and every earlier row is still there. */
  lemma CreateThenGet(t: Table, id: string, payload: Payload, now: Timestamp)
    requires UniqueIds(t)
    requires id !in Ids(t)
    ensures CreateJob(t, id, payload, now).Success?
    ensures UniqueIds(CreateJob(t, id, payload, now).value)
    ensures GetJob(CreateJob(t, id, payload, now).value, id) == Some(Job(id, PENDING, payload, None, None, now, now))
  {
    var t' := CreateJob(t, id, payload, now).value;
    assert forall k :: 0 <= k < |t| ==> t'[k] == t[k] && t[k].id in Ids(t);
    var g := GetJob(t', id);
    assert t'[|t|].id == id;
  }

  /** Creating a job keeps the lifecycle invariant. */
  lemma CreatePreservesWellFormed(t: Table, id: string, payload: Payload, now: Timestamp)
    requires WellFormed(t)
    ensures CreateJob(t, id, payload, now).Success? ==> WellFormed(CreateJob(t, id, payload, now).value)
  {
    var r := CreateJob(t, id, payload, now);
    if r.Success? {
      var t' := r.value;
      assert forall k :: 0 <= k < |t| ==> t'[k] == t[k] && t[k].id in Ids(t);
    }
  }

  /** Claiming keeps the lifecycle invariant: the claimed row moves from
      PENDING to RUNNING and still has neither result nor error. */
  lemma ClaimPreservesWellFormed(t: Table, now: Timestamp)
    requires WellFormed(t)
    ensures WellFormed(ClaimNextJob(t, now).table)
  {
    var c := ClaimNextJob(t, now);
    if c.job.Some? {
      var i :| ClaimedRow(t, now, i, c);
      assert WellFormedJob(c.table[i]);
    }
  }

  /** `claim_next_job` called once per timestamp in `times`, collecting the jobs returned. */
  function ClaimMany(t: Table, times: seq<Timestamp>): (r: (seq<Job>, Table))
    requires UniqueIds(t)
    ensures |r.0| <= |times|
    decreases |times|
  {
    if |times| == 0 then ([], t)
    else
      var c := ClaimNextJob(t, times[0]);
      var rest := ClaimMany(c.table, times[1..]);
      match c.job
      case None => rest
      case Some(j) => ([j] + rest.0, rest.1)
  }

  lemma PendingSetIds(t: Table, p: (string, Timestamp))
    requires p in PendingSet(t)
    ensures p.0 in PendingIds(t)
  {
    var k :| 0 <= k < |t| && t[k].status == PENDING && p == (t[k].id, t[k].createdAt);
  }

  /** `js` are jobs that were PENDING in `t`, with pairwise distinct ids,
      in non-decreasing `created_at` order. */
  predicate FifoFromPending(t: Table, js: seq<Job>) {
    && (forall k :: 0 <= k < |js| ==> (js[k].id, js[k].createdAt) in PendingSet(t))
    && (forall a, b :: 0 <= a < b < |js| ==> js[a].id != js[b].id)
    && (forall a, b :: 0 <= a < b < |js| ==> js[a].createdAt <= js[b].createdAt)
  }

  /** Sequential claims hand out only jobs that were PENDING at the start,
      never the same id twice, and in non-decreasing `created_at` order. */
  lemma {:induction false} ClaimManyDistinctAndOrdered(t: Table, times: seq<Timestamp>)
    requires UniqueIds(t)
    ensures FifoFromPending(t, ClaimMany(t, times).0)
    decreases |times|
  {
    if |times| > 0 {
      var c := ClaimNextJob(t, times[0]);
      ClaimManyDistinctAndOrdered(c.table, times[1..]);
      var rest := ClaimMany(c.table, times[1..]).0;
      if c.job.None? {
        assert ClaimMany(t, times).0 == rest;
      } else {
        var j := c.job.value;
        assert ClaimMany(t, times).0 == [j] + rest;
        PrependOldest(t, c.table, j, rest);
      }
    }
  }

  /** One claim step of the induction above: the oldest pending job goes in
      front of jobs that were still pending after it was claimed. */
  lemma PrependOldest(t: Table, t1: Table, j: Job, rest: seq<Job>)
    requires FifoFromPending(t1, rest)
    requires (j.id, j.createdAt) in PendingSet(t)
    requires forall p :: p in PendingSet(t) ==> j.createdAt <= p.1
    requires PendingSet(t1) == PendingSet(t) - {(j.id, j.createdAt)}
    requires PendingIds(t1) == PendingIds(t) - {j.id}
    ensures FifoFromPending(t, [j] + rest)
  {
    var js := [j] + rest;
    forall k | 0 <= k < |rest|
      ensures rest[k].id != j.id && j.createdAt <= rest[k].createdAt
      ensures (rest[k].id, rest[k].createdAt) in PendingSet(t)
    {
      PendingSetIds(t1, (rest[k].id, rest[k].createdAt));
    }
    forall a, b | 0 <= a < b < |js|
      ensures js[a].id != js[b].id && js[a].createdAt <= js[b].createdAt
    {
      assert js[b] == rest[b - 1];
      if a > 0 {
        assert js[a] == rest[a - 1];
      }
    }
    forall k | 0 <= k < |js| ensures (js[k].id, js[k].createdAt) in PendingSet(t) {
      if k > 0 {
        assert js[k] == rest[k - 1];
      }
    }
  }

  /** The ids of the jobs `js`. */
  function JobIds(js: seq<Job>): set<string> {
    set k | 0 <= k < |js| :: js[k].id
  }

  /** No lost claims: as many claims as there are PENDING jobs hand out
      every one of them, and afterwards nothing is PENDING. */
  lemma {:induction false} ClaimManyDrains(t: Table, times: seq<Timestamp>)
    requires UniqueIds(t)
    requires |times| >= |PendingIds(t)|
    ensures JobIds(ClaimMany(t, times).0) == PendingIds(t)
    ensures PendingIds(ClaimMany(t, times).1) == {}
    decreases |times|
  {
    if |times| == 0 {
      assert ClaimMany(t, times) == ([], t);
    } else {
      var c := ClaimNextJob(t, times[0]);
      var rest := ClaimMany(c.table, times[1..]);
      match c.job
      case None =>
        NothingPending(t);
        ClaimManyDrains(c.table, times[1..]);
      case Some(j) =>
        RemovePending(PendingIds(t), j.id);
        ClaimManyDrains(c.table, times[1..]);
        assert ClaimMany(t, times) == ([j] + rest.0, rest.1);
        JobIdsCons(j, rest.0);
    }
  }

  /** With no PENDING row there are no PENDING ids. */
  lemma NothingPending(t: Table)
    requires !HasPending(t)
    ensures PendingIds(t) == {}
  {
  }

  /** Claiming one pending id leaves one fewer. */
  lemma RemovePending(s: set<string>, x: string)
    requires x in s
    ensures |s - {x}| == |s| - 1
  {
    assert s == (s - {x}) + {x};
  }

  lemma JobIdsCons(j: Job, rest: seq<Job>)
    ensures JobIds([j] + rest) == {j.id} + JobIds(rest)
  {
    var js := [j] + rest;
    forall x | x in JobIds(rest) ensures x in JobIds(js) {
      var k :| 0 <= k < |rest| && rest[k].id == x;
      assert js[k + 1] == rest[k];
    }
    assert js[0] == j;
  }

  /** Jobs created at t1 < t2 < t3, all PENDING and nothing else pending:
      three successive claims return them in creation order. */
  lemma FifoThree(t: Table, a: (string, Timestamp), b: (string, Timestamp), c: (string, Timestamp),
                  n1: Timestamp, n2: Timestamp, n3: Timestamp)
    requires UniqueIds(t)
    requires PendingSet(t) == {a, b, c}
    requires a.1 < b.1 < c.1
    ensures var c1 := ClaimNextJob(t, n1);
      var c2 := ClaimNextJob(c1.table, n2);
      var c3 := ClaimNextJob(c2.table, n3);
      && c1.job.Some? && c1.job.value.id == a.0
      && c2.job.Some? && c2.job.value.id == b.0
      && c3.job.Some? && c3.job.value.id == c.0
  {
    var c1 := ClaimNextJob(t, n1);
    ClaimUniqueOldest(t, a, n1);
    assert PendingSet(c1.table) == {b, c};
    FifoTwo(c1.table, b, c, n2, n3);
  }

  /** The last two claims of the lemma above. */
  lemma FifoTwo(t: Table, b: (string, Timestamp), c: (string, Timestamp), n2: Timestamp, n3: Timestamp)
    requires UniqueIds(t)
    requires PendingSet(t) == {b, c}
    requires b.1 < c.1
    ensures var c2 := ClaimNextJob(t, n2);
      var c3 := ClaimNextJob(c2.table, n3);
      && c2.job.Some? && c2.job.value.id == b.0
      && c3.job.Some? && c3.job.value.id == c.0
  {
    var c2 := ClaimNextJob(t, n2);
    ClaimUniqueOldest(t, b, n2);
    assert PendingSet(c2.table) == {c};
    ClaimUniqueOldest(c2.table, c, n3);
  }

  /** A PENDING job created strictly before every other PENDING job is the
      one the next claim returns, and it then leaves the pending set. */
  lemma ClaimUniqueOldest(t: Table, p: (string, Timestamp), now: Timestamp)
    requires UniqueIds(t)
    requires p in PendingSet(t)
    requires forall q :: q in PendingSet(t) && q != p ==> p.1 < q.1
    ensures ClaimNextJob(t, now).job.Some?
    ensures ClaimNextJob(t, now).job.value.id == p.0
    ensures PendingSet(ClaimNextJob(t, now).table) == PendingSet(t) - {p}
  {
    var c := ClaimNextJob(t, now);
    PendingSetNonEmpty(t, p);
    var j := c.job.value;
    assert (j.id, j.createdAt) == p;
  }

  lemma PendingSetNonEmpty(t: Table, p: (string, Timestamp))
    requires p in PendingSet(t)
    ensures HasPending(t)
  {
  }

  /** Repeating the same `update_job` call leaves the table as a single call
      at the later time would: a repeated terminal write is harmless. */
  lemma UpdateIdempotent(t: Table, id: string, fields: map<string, Value>, n1: Timestamp, n2: Timestamp)
    requires UpdateJob(t, id, fields, n1).Success?
    ensures UpdateJob(UpdateJob(t, id, fields, n1).value, id, fields, n2) == UpdateJob(t, id, fields, n2)
  {
    var t1 := UpdateJob(t, id, fields, n1).value;
    if AllowedUpdates(fields) != map[] && id in Ids(t) {
      assert forall k :: 0 <= k < |t| ==> t1[k].id == t[k].id;
      assert Ids(t1) == Ids(t);
      var t2 := UpdateJob(t1, id, fields, n2).value;
      var t2' := UpdateJob(t, id, fields, n2).value;
      assert |t2| == |t1| == |t| == |t2'|;
      forall k | 0 <= k < |t| ensures t2[k] == t2'[k] {
        assert UpdatedRow(t[k], t1[k], id, fields, n1);
        assert UpdatedRow(t1[k], t2[k], id, fields, n2);
        assert UpdatedRow(t[k], t2'[k], id, fields, n2);
      }
      assert t2 == t2';
    }
  }
}
