/** The job queue of app/db.py over an abstract, in-memory `jobs` table.

    SQLite, the connection cache and the schema DDL are not modelled: the
    table is a sequence of rows in insertion (rowid) order, and every
    operation is one atomic step from a table to a table. The clock and
    `uuid4` are parameters (`now`, `id`). */
module JobStore {
  import opened Wrappers

  /** The producer's payload: a JSON object of string keys and values. */
  type Payload = map<string, string>

  /** `datetime.utcnow()`, abstracted to an ordered integer. */
  type Timestamp = int

  /** The `status` column is TEXT; the queue writes exactly these four values. */
  const PENDING: string := "PENDING"
  const RUNNING: string := "RUNNING"
  const DONE: string := "DONE"
  const FAILED: string := "FAILED"

  predicate IsStatus(s: string) {
    s == PENDING || s == RUNNING || s == DONE || s == FAILED
  }

  predicate IsTerminal(s: string) {
    s == DONE || s == FAILED
  }

  /** One row of `jobs`, which is also the dict `_row_to_dict` returns. */
  datatype Job = Job(
    id: string,
    status: string,
    payload: Payload,
    resultPath: Option<string>,
    error: Option<string>,
    createdAt: Timestamp,
    updatedAt: Timestamp)

  /** The `jobs` table, rows in insertion order. */
  type Table = seq<Job>

  /** A value bound to an `UPDATE` parameter: a string or SQL `NULL`. */
  datatype Value = Text(s: string) | Null

  /** The constraint errors SQLite raises on this schema. */
  datatype DbError = PrimaryKeyViolation(column: string) | NotNullViolation(column: string)

  /** `id TEXT PRIMARY KEY`: no two rows share an id. */
  predicate UniqueIds(t: Table) {
    forall i, j :: 0 <= i < j < |t| ==> t[i].id != t[j].id
  }

  function Ids(t: Table): set<string> {
    set i | 0 <= i < |t| :: t[i].id
  }

  /** The ids of the rows whose status is PENDING. */
  function PendingIds(t: Table): set<string> {
    set i | 0 <= i < |t| && t[i].status == PENDING :: t[i].id
  }

  /** The pending rows as (id, created_at) pairs: what the claim query sees. */
  function PendingSet(t: Table): set<(string, Timestamp)> {
    set i | 0 <= i < |t| && t[i].status == PENDING :: (t[i].id, t[i].createdAt)
  }

  predicate HasPending(t: Table) {
    exists i :: 0 <= i < |t| && t[i].status == PENDING
  }

  /** Row `i` is a PENDING row with the least `created_at` of all PENDING rows. */
  predicate IsOldestPending(t: Table, i: int) {
    && 0 <= i < |t|
    && t[i].status == PENDING
    && forall j :: 0 <= j < |t| && t[j].status == PENDING ==> t[i].createdAt <= t[j].createdAt
  }

  /** The lifecycle invariant of the queue: a known status, no result or
      error while PENDING or RUNNING, exactly a result when DONE and exactly
      an error when FAILED. */
  predicate WellFormedJob(j: Job) {
    && IsStatus(j.status)
    && (j.status == PENDING || j.status == RUNNING ==> j.resultPath.None? && j.error.None?)
    && (j.status == DONE ==> j.resultPath.Some? && j.error.None?)
    && (j.status == FAILED ==> j.error.Some? && j.resultPath.None?)
  }

  predicate WellFormed(t: Table) {
    UniqueIds(t) && forall i :: 0 <= i < |t| ==> WellFormedJob(t[i])
  }

  /** The row index holding `id`, if any. */
  function IndexOf(t: Table, id: string): (r: Option<nat>)
    ensures r.Some? ==> r.value < |t| && t[r.value].id == id
    ensures r.None? <==> id !in Ids(t)
  {
    if |t| == 0 then None
    else if t[0].id == id then Some(0)
    else
      match IndexOf(t[1..], id)
      case None =>
        assert forall k :: 1 <= k < |t| ==> t[k].id == t[1..][k - 1].id;
        None
      case Some(i) => Some(i + 1)
  }

  /** `create_job`: insert a PENDING row with `created_at == updated_at == now`.
      A clashing id (a uuid4 collision) fails the PRIMARY KEY constraint. */
  function CreateJob(t: Table, id: string, payload: Payload, now: Timestamp): (r: Result<Table, DbError>)
    ensures r.Failure? <==> id in Ids(t)
    ensures r.Failure? ==> r.error == PrimaryKeyViolation("id")
    ensures r.Success? ==>
      && |r.value| == |t| + 1
      && r.value[..|t|] == t
      && r.value[|t|].id == id
      && r.value[|t|].status == PENDING
      && r.value[|t|].payload == payload
      && r.value[|t|].resultPath.None? && r.value[|t|].error.None?
      && r.value[|t|].createdAt == now && r.value[|t|].updatedAt == now
  {
    if IndexOf(t, id).Some? then Failure(PrimaryKeyViolation("id"))
    else Success(t + [Job(id, PENDING, payload, None, None, now, now)])
  }

  /** `get_job`: the stored row, or None for an unknown id. */
  function GetJob(t: Table, id: string): (r: Option<Job>)
    ensures r.None? <==> id !in Ids(t)
    ensures r.Some? ==> r.value.id == id && r.value in t
    ensures r.Some? && UniqueIds(t) ==> forall i :: 0 <= i < |t| && t[i].id == id ==> r.value == t[i]
  {
    match IndexOf(t, id)
    case None => None
    case Some(i) => Some(t[i])
  }

  /** The index of a PENDING row with least `created_at`; among equals the
      earliest inserted. `ORDER BY created_at` leaves ties unspecified, so
      only the contract below is relied upon. */
  function OldestPending(t: Table): (r: Option<nat>)
    ensures r.None? <==> !HasPending(t)
    ensures r.Some? ==> IsOldestPending(t, r.value)
  {
    if |t| == 0 then None
    else
      var rest := OldestPending(t[1..]);
      assert forall k :: 1 <= k < |t| ==> t[k] == t[1..][k - 1];
      if t[0].status != PENDING then
        match rest
        case None => None
        case Some(i) => Some(i + 1)
      else
        match rest
        case None => Some(0)
        case Some(i) => if t[i + 1].createdAt < t[0].createdAt then Some(i + 1) else Some(0)
  }

  /** `UPDATE jobs SET status = 'RUNNING', updated_at = ? WHERE id = ? AND status = 'PENDING'`. */
  function MarkRunning(t: Table, id: string, now: Timestamp): Table {
    seq(|t|, k requires 0 <= k < |t| =>
      if t[k].id == id && t[k].status == PENDING then t[k].(status := RUNNING, updatedAt := now) else t[k])
  }

  /** The claimed job together with the table after the claim. */
  datatype Claim = Claim(job: Option<Job>, table: Table)

  /** Row `i` was the oldest pending row of `t`, and claim `c` flipped exactly it to RUNNING. */
  predicate ClaimedRow(t: Table, now: Timestamp, i: int, c: Claim) {
    && IsOldestPending(t, i)
    && c.job == Some(t[i].(status := RUNNING, updatedAt := now))
    && c.table == t[i := t[i].(status := RUNNING, updatedAt := now)]
  }

  /** `claim_next_job`: in one atomic step, pick a PENDING row with minimal
      `created_at` and flip it to RUNNING; with nothing pending, return None
      and leave the table as it was. */
  function ClaimNextJob(t: Table, now: Timestamp): (r: Claim)
    requires UniqueIds(t)
    ensures r.job.None? <==> !HasPending(t)
    ensures r.job.None? ==> r.table == t
    ensures r.job.Some? ==> exists i :: ClaimedRow(t, now, i, r)
    ensures UniqueIds(r.table) && Ids(r.table) == Ids(t)
    ensures r.job.Some? ==>
      && r.job.value.id in PendingIds(t)
      && PendingIds(r.table) == PendingIds(t) - {r.job.value.id}
      && (r.job.value.id, r.job.value.createdAt) in PendingSet(t)
      && (forall p :: p in PendingSet(t) ==> r.job.value.createdAt <= p.1)
      && PendingSet(r.table) == PendingSet(t) - {(r.job.value.id, r.job.value.createdAt)}
  {
    match OldestPending(t)
    case None => Claim(None, t)
    case Some(i) =>
      var id := t[i].id;
      var t' := MarkRunning(t, id, now);
      assert t' == t[i := t[i].(status := RUNNING, updatedAt := now)];
      ClaimFrame(t, i, now);
      var c := Claim(GetJob(t', id), t');
      assert ClaimedRow(t, now, i, c);
      c
  }

  /** Flipping the oldest pending row `i` to RUNNING keeps every id and
      removes exactly that row from the pending rows. */
  lemma ClaimFrame(t: Table, i: int, now: Timestamp)
    requires UniqueIds(t) && IsOldestPending(t, i)
    ensures var t' := t[i := t[i].(status := RUNNING, updatedAt := now)];
      && UniqueIds(t') && Ids(t') == Ids(t)
      && PendingIds(t') == PendingIds(t) - {t[i].id}
      && PendingSet(t') == PendingSet(t) - {(t[i].id, t[i].createdAt)}
  {
    var t' := t[i := t[i].(status := RUNNING, updatedAt := now)];
    assert forall k :: 0 <= k < |t| ==> t'[k].id == t[k].id;
    assert Ids(t') == Ids(t);
    forall x | x in PendingIds(t) - {t[i].id} ensures x in PendingIds(t') {
      var k :| 0 <= k < |t| && t[k].status == PENDING && x == t[k].id;
      assert k != i;
    }
    forall p | p in PendingSet(t) - {(t[i].id, t[i].createdAt)} ensures p in PendingSet(t') {
      var k :| 0 <= k < |t| && t[k].status == PENDING && p == (t[k].id, t[k].createdAt);
      assert k != i;
    }
  }

  /** The columns `update_job` accepts; any other keyword is dropped. */
  const AllowedFields: set<string> := {"status", "result_path", "error"}

  function AllowedUpdates(fields: map<string, Value>): (kept: map<string, Value>)
    ensures kept.Keys == fields.Keys * AllowedFields
    ensures forall k :: k in kept ==> kept[k] == fields[k]
  {
    map k | k in fields && k in AllowedFields :: fields[k]
  }

  /** The column value a bound parameter stores. */
  function Column(v: Value): Option<string> {
    match v
    case Text(s) => Some(s)
    case Null => None
  }

  /** `after` is what the UPDATE built from `fields` at time `now` leaves of row `before`:
      rows with another id are untouched; the row with `id` gets each allowed
      field that was given, `updated_at = now`, and keeps everything else. */
  predicate UpdatedRow(before: Job, after: Job, id: string, fields: map<string, Value>, now: Timestamp) {
    if before.id != id then after == before
    else
      && after.id == before.id
      && after.payload == before.payload
      && after.createdAt == before.createdAt
      && after.updatedAt == now
      && after.status == (if "status" in fields && fields["status"].Text? then fields["status"].s else before.status)
      && after.resultPath == (if "result_path" in fields then Column(fields["result_path"]) else before.resultPath)
      && after.error == (if "error" in fields then Column(fields["error"]) else before.error)
  }

  function SetColumns(j: Job, kept: map<string, Value>, now: Timestamp): Job {
    j.(status := if "status" in kept && kept["status"].Text? then kept["status"].s else j.status,
       resultPath := if "result_path" in kept then Column(kept["result_path"]) else j.resultPath,
       error := if "error" in kept then Column(kept["error"]) else j.error,
       updatedAt := now)
  }

  /** `update_job(job_id, **fields)`: no fields, or none of the allowed ones,
      is a no-op that does not touch `updated_at`; otherwise the allowed
      fields and `updated_at` are set on the row with that id. Binding NULL
      to `status` fails its NOT NULL constraint if a row is hit. */
  function UpdateJob(t: Table, id: string, fields: map<string, Value>, now: Timestamp): (r: Result<Table, DbError>)
    ensures AllowedUpdates(fields) == map[] ==> r == Success(t)
    ensures id !in Ids(t) ==> r == Success(t)
    ensures r.Failure? <==> id in Ids(t) && "status" in fields && fields["status"] == Null
    ensures r.Failure? ==> r.error == NotNullViolation("status")
    ensures r.Success? && AllowedUpdates(fields) != map[] ==>
      && |r.value| == |t|
      && forall k :: 0 <= k < |t| ==> UpdatedRow(t[k], r.value[k], id, fields, now)
  {
    if |fields| == 0 then Success(t)
    else
      var kept := AllowedUpdates(fields);
      if |kept| == 0 then Success(t)
      else if "status" in kept && kept["status"] == Null && IndexOf(t, id).Some? then
        Failure(NotNullViolation("status"))
      else
        var t' := seq(|t|, k requires 0 <= k < |t| => if t[k].id == id then SetColumns(t[k], kept, now) else t[k]);
        assert id !in Ids(t) ==> t' == t;
        Success(t')
  }
}
