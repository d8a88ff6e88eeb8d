/** The `submit` and `status` commands of app/cli.py: validating the
    options, building the payload, and choosing the lines to print.
    Typer's option parsing, `init_db` and the "Using DB" line are not
    modelled. */
module Cli {
  import opened Wrappers
  import opened JobStore
  import opened Lines

  /** An option that was given with a non-empty value (Python truthiness). */
  predicate Given(o: Option<string>) {
    o.Some? && o.value != ""
  }

  function TextOf(o: Option<string>): string {
    if o.Some? then o.value else ""
  }

  /** The payload `submit` builds: one key per non-empty option, nothing else. */
  function BuildPayload(text: Option<string>, image: Option<string>, contextDir: Option<string>): (p: Payload)
    ensures "text" in p <==> Given(text)
    ensures "image" in p <==> Given(image)
    ensures "context_dir" in p <==> Given(contextDir)
    ensures p.Keys <= {"text", "image", "context_dir"}
    ensures Given(text) ==> p["text"] == text.value
    ensures Given(image) ==> p["image"] == image.value
    ensures Given(contextDir) ==> p["context_dir"] == contextDir.value
  {
    var p0: Payload := map[];
    var p1 := if Given(text) then p0["text" := text.value] else p0;
    var p2 := if Given(image) then p1["image" := image.value] else p1;
    if Given(contextDir) then p2["context_dir" := contextDir.value] else p2
  }

  const MissingInput: string := "Error: At least --text or --image is required"

  /** How `submit` ends: rejected before touching the store, the job created,
      or the insert failing with a database error. */
  datatype Submission =
    | Rejected(exitCode: int, message: string)
    | Submitted(id: string, table: Table)
    | StoreFailed(error: DbError)

  /** `submit`: reject when neither text nor image is given (a context
      directory alone is not enough); otherwise create one job whose payload
      is the built map. `id` and `now` stand for `uuid4` and the clock. */
  function Submit(t: Table, text: Option<string>, image: Option<string>, contextDir: Option<string>,
                  id: string, now: Timestamp): (r: Submission)
    ensures r.Rejected? <==> !Given(text) && !Given(image)
    ensures r.Rejected? ==> r.exitCode == 1 && r.message == MissingInput
    ensures r.StoreFailed? <==> (Given(text) || Given(image)) && id in Ids(t)
    ensures r.Submitted? ==>
      && r.id == id
      && |r.table| == |t| + 1
      && r.table[..|t|] == t
      && r.table[|t|].id == id
      && r.table[|t|].status == PENDING
      && r.table[|t|].payload == BuildPayload(text, image, contextDir)
  {
    if !Given(text) && !Given(image) then Rejected(1, MissingInput)
    else
      match CreateJob(t, id, BuildPayload(text, image, contextDir), now)
      case Success(t') => Submitted(id, t')
      case Failure(e) => StoreFailed(e)
  }

  /** What a command prints and the exit code it ends with. */
  datatype Output = Output(exitCode: int, stdout: seq<string>, stderr: seq<string>)

  const NotFound: string := "Job not found"
  const StatusLead: string := "Status: "
  const ResultLead: string := "Result: "
  const ErrorLead: string := "Error: "

  /** `status`: "Job not found" and exit 1 for an unknown id; otherwise the
      status line, then a result line when `result_path` is non-empty, then
      an error line when `error` is non-empty. */
  function Status(t: Table, id: string): (o: Output)
    ensures id !in Ids(t) <==> o.exitCode == 1
    ensures id !in Ids(t) ==> o.stdout == [] && o.stderr == [NotFound]
    ensures id in Ids(t) ==>
      var j := GetJob(t, id).value;
      var path := TextOf(j.resultPath);
      var err := TextOf(j.error);
      && o.exitCode == 0
      && o.stderr == []
      && |o.stdout| == 1 + Count(path) + Count(err)
      && o.stdout[0] == StatusLead + j.status
      && (HasLabel(o.stdout, ResultLead) <==> path != "")
      && (HasLabel(o.stdout, ErrorLead) <==> err != "")
      && (path != "" ==> o.stdout[1] == ResultLead + path)
      && (err != "" ==> o.stdout[|o.stdout| - 1] == ErrorLead + err)
  {
    match GetJob(t, id)
    case None => Output(1, [], [NotFound])
    case Some(j) =>
      var path := TextOf(j.resultPath);
      var err := TextOf(j.error);
      var out := [StatusLead + j.status] + Optional(ResultLead, path) + Optional(ErrorLead, err);
      StatusLeads(j.status, path, err, ResultLead);
      StatusLeads(j.status, path, err, ErrorLead);
      Output(0, out, [])
  }

  /** The status line starts with neither the result nor the error lead, and
      those two differ from each other at their first character. */
  lemma StatusLeads(status: string, path: string, err: string, lead: string)
    requires lead == ResultLead || lead == ErrorLead
    ensures HasLabel([StatusLead + status] + Optional(ResultLead, path) + Optional(ErrorLead, err), lead) <==>
      (lead == ResultLead && path != "") || (lead == ErrorLead && err != "")
  {
    Differs(StatusLead + status, lead, 0);
    assert !HasLabel([StatusLead + status], lead);
    if path != "" {
      if lead == ResultLead {
        PrefixOf(ResultLead, path);
        assert StartsWith(Optional(ResultLead, path)[0], lead);
      } else {
        Differs(ResultLead + path, lead, 0);
      }
      assert HasLabel(Optional(ResultLead, path), lead) <==> lead == ResultLead;
    }
    if err != "" {
      if lead == ErrorLead {
        PrefixOf(ErrorLead, err);
        assert StartsWith(Optional(ErrorLead, err)[0], lead);
      } else {
        Differs(ErrorLead + err, lead, 0);
      }
      assert HasLabel(Optional(ErrorLead, err), lead) <==> lead == ErrorLead;
    }
    HasLabelConcat([StatusLead + status], Optional(ResultLead, path), lead);
    HasLabelConcat([StatusLead + status] + Optional(ResultLead, path), Optional(ErrorLead, err), lead);
  }

  /** A submitted job is immediately found PENDING by `status`, with its
      payload exactly the map `submit` built. */
  lemma SubmitThenStatus(t: Table, text: Option<string>, image: Option<string>, contextDir: Option<string>,
                         id: string, now: Timestamp)
    requires UniqueIds(t)
    requires Given(text) || Given(image)
    requires id !in Ids(t)
    ensures Submit(t, text, image, contextDir, id, now).Submitted?
    ensures var t' := Submit(t, text, image, contextDir, id, now).table;
      && GetJob(t', id).Some?
      && GetJob(t', id).value.payload == BuildPayload(text, image, contextDir)
      && Status(t', id) == Output(0, [StatusLead + PENDING], [])
  {
    var t' := Submit(t, text, image, contextDir, id, now).table;
    assert forall k :: 0 <= k < |t| ==> t'[k] == t[k] && t[k].id in Ids(t);
    assert t'[|t|].id == id;
    var j := GetJob(t', id).value;
    assert j == t'[|t|];
  }
}
