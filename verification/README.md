# A verified model of the job queue

This project models the core of a single-node job queue written in Python. It
covers:

- the `jobs` store of `app/db.py`: `create_job`, `get_job`, `claim_next_job` and `update_job`;
- the worker loop of `app/worker.py`: claim a job, run the handler, record DONE or FAILED, and shut down gracefully;
- the report lines `process_job` builds;
- the `submit` and `status` commands of `app/cli.py`;
- the conversation `Context` of `app/context.py`.

The model is functional. The table is a value (`seq<Job>` in insertion order),
and every operation is a pure function from a table to a result and a new
table. The clock, `uuid4`, the shutdown flag and the job handler are inputs.

Modules, one per concern:

- `Wrappers` (wrappers.dfy): `Option` and `Result`.
- `JobStore` (job_store.dfy): the `Job` row, the table, the PRIMARY KEY invariant `UniqueIds`, the lifecycle invariant `WellFormed`, and the four queue operations.
- `QueueLemmas` (queue_lemmas.dfy): properties that relate several queue calls.
- `Lines` (lines.dfy): line-prefix predicates shared by the report and the CLI.
- `Report` (report.dfy): `process_job`'s report lines and report path.
- `Worker` (worker.dfy): one loop iteration (`Step`) and a whole run (`Run`).
- `WorkerLemmas` (worker_lemmas.dfy): properties of whole runs.
- `Cli` (cli.dfy): `submit` and `status`.
- `Conversation` (conversation.dfy): `Context` and its three methods.

Modelling decisions:

- The `status` column is TEXT. It is modelled as a `string`, with constants `PENDING`, `RUNNING`, `DONE` and `FAILED`. `update_job` can store any text there, just as the source can.
- `update_job(**fields)` takes a `map<string, Value>`, where `Value` is `Text(s)` or `Null` (Python `None`).
- SQLite checks NOT NULL only on rows an UPDATE actually hits. So `status=None` fails only when the id exists.
- A clashing id in `create_job` (a uuid4 collision) fails the PRIMARY KEY constraint. Both constraint errors are `Failure` values.
- Timestamps are integers. The source stores `datetime.utcnow().isoformat()` text, which comes in two forms: `YYYY-MM-DDTHH:MM:SS.ffffff`, or `YYYY-MM-DDTHH:MM:SS` when the microsecond is 0. The short form is a prefix of every string of the same second that has a fraction, so string order is still time order and integers sort the same way.
- Ids are unique because `id` is the PRIMARY KEY. Operations that depend on this take `UniqueIds(t)` as a precondition: it is a property of every reachable table, not a demand on callers.
- `ORDER BY created_at ASC LIMIT 1` leaves ties unspecified. `OldestPending` returns the earliest-inserted minimal row, but `ClaimNextJob`'s contract promises only some PENDING row with minimal `created_at`. Every lemma about claims uses only that contract.
- A worker iteration gets the flag value at the loop top, the two clock readings, the handler (`Job -> Result<string, Exception>`), and the flag value read before each of the four sleep ticks. The loop ends when the flag is set at the top. It also ends after a wait that broke on the flag: the flag stays set, so the `while` test fails next.
- The failure message is `"<Type>: <msg>"`, built from an `Exception(typeName, message)` value.

Three facts about the code shape what is proved:

- `update_job` has no status guard: it writes whatever allowed fields it gets to the row with that id, whatever that row's status. So the lifecycle invariant (`WellFormed`) is proved for `create_job`, `claim_next_job` and the worker's own terminal writes, not for arbitrary `update_job` calls.
- The claim query orders only by `created_at`, so ties are broken in no particular order (see above).
- `create_job` accepts any payload, the empty one included; only `submit` checks that text or image is given.

## Model

| member | source | states |
|---|---|---|
| JobStore.CreateJob | app/db.py:81-95 | A fresh id yields one more row: id, status PENDING, the given payload, no result or error, `created_at == updated_at == now`. Every earlier row is unchanged. An id already present fails with a PRIMARY KEY violation. |
| JobStore.GetJob | app/db.py:98-109 | Returns None exactly when no row has the id. Otherwise it returns the stored row with that id, the only one under unique ids. |
| JobStore.OldestPending | app/db.py:125-137 | Returns None exactly when no row is PENDING. Otherwise it returns a PENDING row whose `created_at` is at most that of every PENDING row. |
| JobStore.ClaimNextJob | app/db.py:112-157 | With nothing PENDING it returns None and leaves the table unchanged. Otherwise it picks a minimal-`created_at` PENDING row, returns it as RUNNING with `updated_at = now`, and that row alone changes. The claimed id leaves the pending set, and ids stay unique. |
| JobStore.ClaimFrame | app/db.py:142-149 | Flipping the oldest PENDING row to RUNNING keeps every id and removes exactly that row from the PENDING rows. |
| JobStore.UpdateJob | app/db.py:160-190 | With no allowed field names it is a no-op: `updated_at` is not bumped either. An unknown id changes nothing. Otherwise the row with the id gets exactly the allowed fields given, plus `updated_at = now`; every other row is unchanged. It fails iff a NULL status would be written to an existing row. |
| QueueLemmas.CreateThenGet | app/db.py:84-109 | After creating a job with a fresh id, `get_job` returns it PENDING, with the payload given and null result and error. |
| QueueLemmas.CreatePreservesWellFormed | app/db.py:84-94 | Creating a job keeps unique ids and the lifecycle invariant. |
| QueueLemmas.ClaimPreservesWellFormed | app/db.py:142-153 | Claiming keeps unique ids and the lifecycle invariant. |
| QueueLemmas.ClaimManyDistinctAndOrdered | app/db.py:125-149 | Repeated claims return only jobs that were PENDING at the start. They never return the same id twice, and they come in non-decreasing `created_at` order. |
| QueueLemmas.ClaimManyDrains | app/db.py:112-157 | No lost claims: with at least as many claims as PENDING jobs, the ids handed out are exactly the PENDING ids at the start, and afterwards nothing is PENDING. |
| QueueLemmas.FifoThree | app/db.py:127-130 | With exactly three PENDING jobs created at t1 < t2 < t3, three successive claims return them in that order. |
| QueueLemmas.ClaimUniqueOldest | app/db.py:125-149 | A PENDING job created strictly before every other PENDING job is the one the next claim returns, and it then leaves the pending set. |
| QueueLemmas.UpdateIdempotent | app/db.py:172-190 | Repeating an `update_job` call gives the same table as one call at the later time, so a repeated terminal write is harmless. |
| Report.ReportLines | app/worker.py:50-74 | The first line is `# Job Report: <id>`. There are 13 lines plus one per non-empty input. A `**Text:**`, `**Image:**` or `**Context Directory:**` line appears iff that payload value is non-empty, and it then carries the value. The last line echoes the text, or says no text was provided. |
| Report.ReportJobId | app/worker.py:33-37 | Any path it accepts is the report path of the id it returns. |
| Report.ReportPathRoundTrip | app/worker.py:33-37 | `ReportPath(id)` is `outputs/<id>/report.md`, the path `process_job` returns. `ReportJobId` gives back the job id from it, so distinct jobs have distinct reports. |
| Report.ProcessJob | app/worker.py:23-82 | The returned path is the job's own report path. The report starts with the job's title line, then its creation time. |
| Worker.ErrorMessage | app/worker.py:128 | The failure text is the exception type name, then `": "`, then the message, so it is never empty. |
| Worker.ParseErrorMessage | app/worker.py:128 | Any error text it accepts is the `"<Type>: <msg>"` text of the exception it returns, whose type name has no `:`. |
| Worker.ErrorMessageRoundTrip | app/worker.py:127-128 | For an exception whose type name has no `:`, the recorded error text gives back exactly that type name and message. A class declared with a `class` statement has an identifier for a name. Every exception that `process_job`, the pathlib and file calls, or sqlite3 can raise into the `except` at line 127 is such a class. A name containing `:` is possible with `type(...)` or by reassigning `__name__`. That is the case the precondition excludes. |
| Worker.Wait | app/worker.py:113-117 | The wait sleeps at most 4 ticks. The flag was clear before every tick slept, and a wait shorter than 4 ticks stopped because the flag was set. |
| Worker.Step | app/worker.py:107-130 | With the flag set it claims nothing and changes nothing. With nothing pending it only waits. Otherwise it takes the oldest pending row and runs the handler on the RUNNING job. On success the row becomes DONE with `result_path` set to the result; on failure it becomes FAILED with the formatted error. The other field stays as it was, `updated_at` is set, and no other row changes. |
| Worker.Run | app/worker.py:107-130 | The loop records at most one event per iteration. `RunHonoursShutdown` and `RunStopsOnlyOnFlag` state when it stops. |
| WorkerLemmas.RunHonoursShutdown | app/worker.py:107-117 | No iteration at or after one that sees the flag set runs. An idle wait cut short by the flag is the last thing the loop does. |
| WorkerLemmas.RunStopsOnlyOnFlag | app/worker.py:107-117 | A run that ends before its last iteration ended because of the flag: the next iteration saw it set at the loop top, or the last event is a wait it cut short. |
| WorkerLemmas.RunWithoutShutdown | app/worker.py:107-130 | If the flag is never set, every iteration runs and either processes a job or waits the full 4 ticks. A failing handler never ends the loop. |
| WorkerLemmas.FirstStepRuns | app/worker.py:107-130 | If the flag is never set, the first iteration goes round again, having processed a job or waited the full 4 ticks. |
| WorkerLemmas.RunKeepsSettledRows | app/worker.py:119-130 | A run changes no row that was not PENDING, and it keeps row ids and the table length. |
| WorkerLemmas.RunClaimsEachJobOnce | app/worker.py:107-130 | Every job a run processes was PENDING when the run began, and reports DONE or FAILED. No job is processed twice. |
| WorkerLemmas.RunRecordsOutcomes | app/worker.py:119-130 | At the end of a run, each processed job's row still holds the terminal status its iteration recorded. |
| WorkerLemmas.StepPreservesWellFormed | app/worker.py:122-130 | An iteration keeps the lifecycle invariant. A DONE row has a result and no error; a FAILED row has an error and no result. |
| WorkerLemmas.RunPreservesWellFormed | app/worker.py:107-130 | A whole run keeps unique ids and the lifecycle invariant. |
| WorkerLemmas.EnqueueThenWork | app/worker.py:122-130 | A job enqueued on a table with nothing else pending is claimed by the next iteration. It ends DONE with the handler's result, or FAILED with the `<Type>: <msg>` error text. |
| WorkerLemmas.EnqueueOnIdle | app/db.py:84-94 | A job enqueued when nothing is PENDING becomes the only PENDING row. |
| WorkerLemmas.ReportHandlerRecordsOwnPath | app/worker.py:123-124 | With a handler that returns `process_job`'s report path (its success path), a processed job is DONE, and its `result_path` is its own report path, which names it. |
| Cli.BuildPayload | app/cli.py:23-29 | The key `text`, `image` or `context_dir` is present iff that option is non-empty, and it then holds the option's value. No other key appears. |
| Cli.Submit | app/cli.py:10-35 | The command is rejected with exit 1 and no job created iff both text and image are empty or missing; a context directory alone is not enough. Otherwise it creates exactly one PENDING job, whose payload is the built map. The exception is an id already present, when it ends `StoreFailed` with the store's error. |
| Cli.Status | app/cli.py:39-58 | An unknown id gives `Job not found` on stderr and exit 1. Otherwise `Status:` comes first, a `Result:` line appears iff `result_path` is non-empty and comes right after it, and an `Error:` line appears iff `error` is non-empty and comes last. |
| Cli.SubmitThenStatus | app/cli.py:34 | Right after a successful submit, `status` prints `Status: PENDING`, and the stored payload is the built map. |
| Conversation.NewContext | app/context.py:9-11 | A new context holds the prompt with empty history and tool results. |
| Conversation.BuildMessages | app/context.py:13-20 | The list has `2 + |history|` messages: the system message, the user's prompt, then the history in order. |
| Conversation.AddAssistantMessage | app/context.py:22-24 | It appends exactly one `assistant` message to the history. The prompt and tool results are unchanged. |
| Conversation.AddToolResult | app/context.py:26-28 | It appends exactly one tool result. The prompt and history are unchanged. |
| Conversation.AssistantMessageIsSent | app/context.py:13-24 | After an assistant reply is added, the message list is the old one plus that reply. |
| Conversation.ToolResultNotSent | app/context.py:13-28 | Adding a tool result leaves the message list unchanged. |

## Left out

- SQLite itself: the connection cache `_get_connection`, `_resolve_path`, `get_db_path`, the `init_db` DDL and index, and `BEGIN IMMEDIATE`/`ROLLBACK`. A claim is one atomic step instead.
- Concurrency between worker processes. The model is sequential, so the claim's `status = 'PENDING'` guard always matches.
- `claim_next_job`'s `worker_id` argument, because the source never uses it.
- `_row_to_dict` and JSON (de)serialisation. A stored row is the dict returned, and `json.loads(json.dumps(p)) == p` is taken as given for string maps.
- Payload values other than strings, and `update_job` values other than strings and `None`.
- `datetime.utcnow()`, `uuid4()` and ISO formatting. They become integer timestamps, id parameters and a `render` function.
- In `process_job`: the directory creation, the run log, the file write and the `"\n".join` of the lines. Its I/O failures are folded into the handler's `Failure` outcome.
- Signal handlers, `time.sleep`, `print`/`typer.echo`, `sys.exit`, the worker id and the `worker` CLI command. The "Using DB" line of `submit` and `status` is omitted too.
- An exception raised by the DONE write itself would be caught and turned into FAILED. In the model that write cannot fail, because its status is never NULL.
- `print` is assumed never to raise. In the source, the `print` after the DONE write (app/worker.py:125) is inside the `try`. If it raises, for example with BrokenPipeError on a closed stdout or UnicodeEncodeError, the `except` writes FAILED and an error. The `result_path` from the DONE write stays set, so the row is FAILED with both a result and an error, outside `WellFormed`. The prints at lines 111, 120 and 130 are outside the `try`, so one that raises ends the loop. If the print at line 120 raises, the claimed job is left RUNNING.
- Store errors in the claim (app/worker.py:108) or in the FAILED write (line 129). Both are outside the `try`, so the source lets them end the loop. In the model the claim and the terminal writes cannot fail.
- `Worker.Run` models a finite prefix of the endless loop, one iteration per input element.
- `Report.ReportPath` is relative to the repository root; the `REPO_ROOT` prefix is dropped. It joins by string concatenation, where the source uses pathlib, which normalises segments such as `a/.` or an empty id. Ids are uuid4 strings of hex digits and `-`, for which the two agree. The distinct-paths property is proved for every string, but it carries over to the source only for such ids.
- `Context.history` and `Context.tool_results` are `list[dict]`, and the pydantic constructor accepts any dicts. The model fixes their entries as `Message(role, content)` and `ToolResult(tool, result)`, the shapes the three methods create. The only caller passes just a prompt (app/agent.py:15).
- `app/llm.py`, `app/agent.py` and `app/tools/wikipedia.py` wrap remote APIs and have no local logic to model.
