/** The report that `process_job` in app/worker.py writes for a job: the
    list of report lines and the path of the report file. Creating the
    output directory, the run log and the file write are left out. */
module Report {
  import opened Wrappers
  import opened JobStore
  import opened Lines

  /** `payload.get(key)` read as text: absent and empty both mean "no input". */
  function Field(p: Payload, key: string): string {
    if key in p then p[key] else ""
  }

  const TitleLabel: string := "# Job Report: "
  const TextLabel: string := "**Text:** "
  const ImageLabel: string := "**Image:** "
  const ContextLabel: string := "**Context Directory:** "
  const EchoLabel: string := "*Input text echoed:* "
  const NoTextLine: string := "*No text input provided.*"

  /** The fixed number of lines every report has: seven before the inputs, six after. */
  const FixedLines: nat := 13

  function Header(id: string, created: string, processed: string): seq<string> {
    [TitleLabel + id, "", "**Created:** " + created, "**Processed:** " + processed, "", "## Input", ""]
  }

  function Trailer(text: string): seq<string> {
    ["", "## Result", "", "Processing completed successfully.", "",
     if text != "" then EchoLabel + text else NoTextLine]
  }

  /** The report lines for job `id`, created and processed at the rendered times. */
  function ReportLines(id: string, payload: Payload, created: string, processed: string): (lines: seq<string>)
    ensures var text := Field(payload, "text");
      var image := Field(payload, "image");
      var dir := Field(payload, "context_dir");
      && |lines| == FixedLines + Count(text) + Count(image) + Count(dir)
      && lines[0] == TitleLabel + id
      && lines[|lines| - 1] == (if text != "" then EchoLabel + text else NoTextLine)
      && (HasLabel(lines, TextLabel) <==> text != "")
      && (HasLabel(lines, ImageLabel) <==> image != "")
      && (HasLabel(lines, ContextLabel) <==> dir != "")
      && (text != "" ==> TextLabel + text in lines)
      && (image != "" ==> ImageLabel + image in lines)
      && (dir != "" ==> ContextLabel + dir in lines)
  {
    var text := Field(payload, "text");
    var image := Field(payload, "image");
    var dir := Field(payload, "context_dir");
    var h := Header(id, created, processed);
    var ins := Optional(TextLabel, text) + Optional(ImageLabel, image) + Optional(ContextLabel, dir);
    var tr := Trailer(text);
    var lines := h + ins + tr;
    LabelsOfReport(h, ins, tr, id, created, processed, text, image, dir, TextLabel);
    LabelsOfReport(h, ins, tr, id, created, processed, text, image, dir, ImageLabel);
    LabelsOfReport(h, ins, tr, id, created, processed, text, image, dir, ContextLabel);
    assert text != "" ==> lines[|h|] == TextLabel + text;
    assert image != "" ==> lines[|h| + Count(text)] == ImageLabel + image;
    assert dir != "" ==> lines[|h| + Count(text) + Count(image)] == ContextLabel + dir;
    lines
  }

  /** The lead of one of the three optional input lines. */
  predicate IsInputLead(lead: string) {
    lead == TextLabel || lead == ImageLabel || lead == ContextLabel
  }

  /** The three input leads differ at their third or fourth character from
      every header line, so no header line carries one. */
  lemma HeaderHasNoInput(id: string, created: string, processed: string, lead: string)
    requires IsInputLead(lead)
    ensures !HasLabel(Header(id, created, processed), lead)
  {
    var h := Header(id, created, processed);
    forall k | 0 <= k < |h| ensures !StartsWith(h[k], lead) {
      if k == 0 || k == 5 {
        Differs(h[k], lead, 0);
      } else if k == 2 {
        if lead == ContextLabel { Differs(h[k], lead, 3); } else { Differs(h[k], lead, 2); }
      } else if k == 3 {
        Differs(h[k], lead, 2);
      }
    }
  }

  /** Likewise no trailer line carries an input lead. */
  lemma TrailerHasNoInput(text: string, lead: string)
    requires IsInputLead(lead)
    ensures !HasLabel(Trailer(text), lead)
  {
    var tr := Trailer(text);
    forall k | 0 <= k < |tr| ensures !StartsWith(tr[k], lead) {
      if k == 1 || k == 3 {
        Differs(tr[k], lead, 0);
      } else if k == 5 {
        Differs(tr[k], lead, 1);
      }
    }
  }

  lemma OptionalLabel(own: string, value: string, lead: string)
    requires IsInputLead(own) && IsInputLead(lead)
    ensures HasLabel(Optional(own, value), lead) <==> own == lead && value != ""
  {
    if value != "" {
      if own == lead {
        PrefixOf(own, value);
        assert StartsWith(Optional(own, value)[0], lead);
      } else {
        Differs(own + value, lead, 2);
      }
    }
  }

  /** Which of the three input leads a report's lines start with. */
  lemma LabelsOfReport(h: seq<string>, ins: seq<string>, tr: seq<string>,
                       id: string, created: string, processed: string,
                       text: string, image: string, dir: string, lead: string)
    requires h == Header(id, created, processed)
    requires ins == Optional(TextLabel, text) + Optional(ImageLabel, image) + Optional(ContextLabel, dir)
    requires tr == Trailer(text)
    requires IsInputLead(lead)
    ensures HasLabel(h + ins + tr, lead) <==>
      (lead == TextLabel && text != "") || (lead == ImageLabel && image != "") || (lead == ContextLabel && dir != "")
  {
    HeaderHasNoInput(id, created, processed, lead);
    TrailerHasNoInput(text, lead);
    OptionalLabel(TextLabel, text, lead);
    OptionalLabel(ImageLabel, image, lead);
    OptionalLabel(ContextLabel, dir, lead);
    HasLabelConcat(Optional(TextLabel, text), Optional(ImageLabel, image), lead);
    HasLabelConcat(Optional(TextLabel, text) + Optional(ImageLabel, image), Optional(ContextLabel, dir), lead);
    HasLabelConcat(h, ins, lead);
    HasLabelConcat(h + ins, tr, lead);
  }

  const OutputsDir: string := "outputs/"
  const ReportFile: string := "/report.md"

  /** `REPO_ROOT / "outputs" / job_id / "report.md"`, relative to the repository root. */
  function ReportPath(id: string): string {
    OutputsDir + id + ReportFile
  }

  /** The job id a report path belongs to: the inverse of `ReportPath`. */
  function ReportJobId(path: string): (r: Option<string>)
    ensures r.Some? ==> ReportPath(r.value) == path
  {
    if |path| >= |OutputsDir| + |ReportFile|
       && path[..|OutputsDir|] == OutputsDir
       && path[|path| - |ReportFile|..] == ReportFile
    then
      var id := path[|OutputsDir|..|path| - |ReportFile|];
      assert path == path[..|OutputsDir|] + id + path[|path| - |ReportFile|..];
      Some(id)
    else None
  }

  /** Every job's report path names that job, so no two jobs share a report. */
  lemma ReportPathRoundTrip(id: string)
    ensures ReportJobId(ReportPath(id)) == Some(id)
  {
    var p := ReportPath(id);
    assert p[..|OutputsDir|] == OutputsDir;
    assert p[|p| - |ReportFile|..] == ReportFile;
    assert p[|OutputsDir|..|p| - |ReportFile|] == id;
  }

  /** What `process_job` produces for a job: the report's path and lines. */
  datatype Written = Written(path: string, lines: seq<string>)

  /** `process_job` on its success path; `render` is `isoformat` of a timestamp. */
  function ProcessJob(job: Job, render: Timestamp -> string, processedAt: Timestamp): (r: Written)
    ensures ReportJobId(r.path) == Some(job.id)
    ensures |r.lines| >= FixedLines
    ensures r.lines[0] == TitleLabel + job.id
    ensures r.lines[2] == "**Created:** " + render(job.createdAt)
  {
    ReportPathRoundTrip(job.id);
    Written(ReportPath(job.id), ReportLines(job.id, job.payload, render(job.createdAt), render(processedAt)))
  }
}
