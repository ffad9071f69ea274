/** The polling of a generation task on the result page
    (static/js/result.js, `pollTask`). Each response is read once: its
    progress is clamped for display and its status decides whether to fail,
    start a refine, show the model or poll again. A refine continues as a
    nested poll of the refine task that hands on the preview task's id;
    since the outer poll ends as soon as the nested one does, the nesting
    is a single loop here whose current task id changes at each refine.

    The server is two oracles: `respond(k)` is the k-th status response
    (counting every fetch from 0) and `startRefine(r)` what the r-th refine
    request returns, the new task id or the error thrown. */
module ResultPoll {
  import opened Wrappers

  /** The statuses the page tells apart; `Running` holds every other
      status text ("PENDING", "IN_PROGRESS", ...). */
  datatype Status = Succeeded | Failed | Cancelled | Running(text: string)

  /** The status as the server writes it. */
  function StatusText(s: Status): string {
    match s
    case Succeeded => "SUCCEEDED"
    case Failed => "FAILED"
    case Cancelled => "CANCELLED"
    case Running(t) => t
  }

  /** A status value that a response can carry: `Running` never holds one
      of the three texts the page compares against. */
  predicate WellFormed(s: Status) {
    s.Running? ==> s.text != "SUCCEEDED" && s.text != "FAILED" && s.text != "CANCELLED"
  }

  /** The status a response's `status` text stands for. */
  function ParseStatus(text: string): (s: Status)
    ensures WellFormed(s) && StatusText(s) == text
  {
    if text == "SUCCEEDED" then Succeeded
    else if text == "FAILED" then Failed
    else if text == "CANCELLED" then Cancelled
    else Running(text)
  }

  /** Parsing and writing a status are inverse on well-formed statuses. */
  lemma ParseStatusText(s: Status)
    requires WellFormed(s)
    ensures ParseStatus(StatusText(s)) == s
  {
  }

  /** The fields of a status response the page reads. `error` and `glb`
      are empty when missing, `preview` says whether `mode` is "preview",
      `progress` is `None` when missing or falsy, and `textures` is the
      length of `texture_urls` (0 when missing). */
  datatype TaskView = TaskView(
    error: string, status: Status, preview: bool, progress: Option<real>, textures: nat, glb: string)

  /** `Math.max(0, Math.min(100, j.progress || 0))`. */
  function ClampProgress(p: Option<real>): (r: real)
    ensures 0.0 <= r <= 100.0
    ensures p.None? ==> r == 0.0
    ensures p.Some? && 0.0 <= p.value <= 100.0 ==> r == p.value
    ensures p.Some? && p.value > 100.0 ==> r == 100.0
    ensures p.Some? && p.value < 0.0 ==> r == 0.0
  {
    var v := p.GetOr(0.0);
    var low := if v < 100.0 then v else 100.0;
    if low > 0.0 then low else 0.0
  }

  /** The progress the page shows for response `j`: none when the response
      carries an error, which is thrown before the bar is updated. */
  function ShownProgress(j: TaskView): (r: Option<real>)
    ensures r.None? <==> j.error != ""
    ensures r.Some? ==> 0.0 <= r.value <= 100.0 && r.value == ClampProgress(j.progress)
  {
    if j.error != "" then None else Some(ClampProgress(j.progress))
  }

  /** What one response makes the page do. */
  datatype Step = Fail(message: string) | Refine | Show(glb: string) | Wait

  const GlbMissing: string := "GLB URL not found"

  /** A finished task needs a refine when it was a preview or came back
      without textures. */
  predicate NeedsRefine(j: TaskView) {
    j.preview || j.textures == 0
  }

  predicate Terminal(status: Status) {
    status.Failed? || status.Cancelled?
  }

  /** The branch `pollTask` takes on response `j` (with refining after a
      preview switched on, as the page ships). */
  function Decide(j: TaskView): Step {
    if j.error != "" then Fail(j.error)
    else if j.status.Succeeded? then
      if NeedsRefine(j) then Refine
      else if j.glb == "" then Fail(GlbMissing)
      else Show(j.glb)
    else if Terminal(j.status) then Fail(StatusText(j.status))
    else Wait
  }

  /** The decision by cases of the response. */
  lemma DecideCases(j: TaskView)
    // an error field, or a failed or cancelled task, ends the poll with an error
    ensures j.error != "" ==> Decide(j) == Fail(j.error)
    ensures j.error == "" && Terminal(j.status) ==> Decide(j) == Fail(StatusText(j.status))
    // a finished preview, or a finished task without textures, is refined
    ensures Decide(j).Refine? <==> j.error == "" && j.status.Succeeded? && NeedsRefine(j)
    // any other finished task shows its GLB, and a missing GLB is an error
    ensures Decide(j).Show? <==> j.error == "" && j.status.Succeeded? && !NeedsRefine(j) && j.glb != ""
    ensures Decide(j).Show? ==> Decide(j).glb == j.glb
    ensures j.error == "" && j.status.Succeeded? && !NeedsRefine(j) && j.glb == "" ==> Decide(j) == Fail(GlbMissing)
    // every other status polls the same task again
    ensures Decide(j).Wait? <==> j.error == "" && j.status.Running?
    // for a status read from its text, that is any text but the three the page knows
    ensures WellFormed(j.status) ==>
      (Decide(j).Wait? <==>
        (j.error == "" && StatusText(j.status) != "SUCCEEDED" && StatusText(j.status) != "FAILED"
         && StatusText(j.status) != "CANCELLED"))
  {
  }

  /** How polling ends: the model shown, an error, or still polling when
      the fetch budget ran out. */
  datatype Outcome = Shown(glb: string) | Errored(message: string) | StillPolling

  /** The number of the first `k` responses that start a refine. */
  function Refines(respond: nat -> TaskView, k: nat): nat {
    if k == 0 then 0 else Refines(respond, k - 1) + (if Decide(respond(k - 1)).Refine? then 1 else 0)
  }

  /** A response after which polling goes on: a wait, or a refine whose
      request succeeded. */
  predicate Continues(respond: nat -> TaskView, startRefine: nat -> Result<string, string>, i: nat) {
    var s := Decide(respond(i));
    s.Wait? || (s.Refine? && startRefine(Refines(respond, i)).Ok?)
  }

  /** Response `i`, about task `from`, lets polling go on with task `to`:
      the same task after a wait, the started task after a refine. */
  predicate Follows(respond: nat -> TaskView, startRefine: nat -> Result<string, string>, i: nat, from: string, to: string) {
    var s := Decide(respond(i));
    (s.Wait? && to == from) || (s.Refine? && startRefine(Refines(respond, i)) == Ok(to))
  }

  /** `polled` and `progress` record a poll that began with `taskId`:
      the progress shown for each response is its clamped progress, none
      for a response carrying an error, and
      each response but the last let polling go on with the next task. */
  predicate Trace(
    respond: nat -> TaskView, startRefine: nat -> Result<string, string>, taskId: string,
    polled: seq<string>, progress: seq<Option<real>>)
  {
    |progress| == |polled|
    && (|polled| > 0 ==> polled[0] == taskId)
    && (forall i :: 0 <= i < |polled| ==> progress[i] == ShownProgress(respond(i)))
    && (forall i :: 0 <= i < |polled| - 1 ==> Follows(respond, startRefine, i, polled[i], polled[i + 1]))
  }

  /** A trace grows by the task the last response led to. */
  lemma TraceStep(
    respond: nat -> TaskView, startRefine: nat -> Result<string, string>, taskId: string,
    polled: seq<string>, progress: seq<Option<real>>, current: string)
    requires Trace(respond, startRefine, taskId, polled, progress)
    requires |polled| == 0 ==> current == taskId
    requires |polled| > 0 ==> Follows(respond, startRefine, |polled| - 1, polled[|polled| - 1], current)
    ensures Trace(respond, startRefine, taskId, polled + [current], progress + [ShownProgress(respond(|polled|))])
  {
  }

  /** Response `i` ends polling with `outcome`: the model shown, the
      error the response reports, or the error its refine request threw. */
  predicate Stops(respond: nat -> TaskView, startRefine: nat -> Result<string, string>, i: nat, outcome: Outcome) {
    match Decide(respond(i))
    case Show(g) => outcome == Shown(g)
    case Fail(m) => outcome == Errored(m)
    case Refine => startRefine(Refines(respond, i)).Err? && outcome == Errored(startRefine(Refines(respond, i)).error)
    case Wait => false
  }

  /** No response both lets polling go on and ends it, the outcome it
      ends with is determined, and a model is only ever shown with a URL. */
  lemma StopsOrContinues(respond: nat -> TaskView, startRefine: nat -> Result<string, string>, i: nat, o1: Outcome, o2: Outcome)
    ensures !(Continues(respond, startRefine, i) && Stops(respond, startRefine, i, o1))
    ensures Stops(respond, startRefine, i, o1) && Stops(respond, startRefine, i, o2) ==> o1 == o2
    ensures Stops(respond, startRefine, i, o1) ==> !o1.StillPolling? && (o1.Shown? ==> o1.glb != "")
  {
  }

  /** `pollTask(taskId, previewTaskId)` with at most `fuel` fetches. It
      returns how polling ended, the task id of each fetch, the id passed
      to each refine request and the progress shown after each response. */
  method PollTask(
    taskId: string, previewTaskId: string,
    respond: nat -> TaskView, startRefine: nat -> Result<string, string>, fuel: nat)
    returns (outcome: Outcome, polled: seq<string>, refined: seq<string>, progress: seq<Option<real>>)
    // the first fetch is for the given task; each response's progress,
    // clamped to [0, 100], is shown unless the response carries an error; a wait fetches the same task again and
    // a refine moves on to the task it started
    ensures Trace(respond, startRefine, taskId, polled, progress) && |polled| <= fuel
    // polling goes on until the budget is spent, or ends at the last
    // response, which decides the outcome
    ensures outcome.StillPolling? ==> |polled| == fuel && (fuel == 0 || Continues(respond, startRefine, fuel - 1))
    ensures !outcome.StillPolling? ==> |polled| > 0 && Stops(respond, startRefine, |polled| - 1, outcome)
    // every refine is asked for with the preview task's id, which is the
    // first task's id unless one was passed in
    ensures |refined| == Refines(respond, |polled|)
    ensures taskId != "" || previewTaskId != "" ==>
      forall r :: 0 <= r < |refined| ==> refined[r] == if previewTaskId != "" then previewTaskId else taskId
  {
    var pid := if previewTaskId == "" then taskId else previewTaskId;
    var current := taskId;
    polled, refined, progress := [], [], [];
    var k := 0;
    while k < fuel
      invariant k == |polled| <= fuel
      invariant Trace(respond, startRefine, taskId, polled, progress)
      invariant k == 0 ==> current == taskId
      invariant k > 0 ==> Follows(respond, startRefine, k - 1, polled[k - 1], current)
      invariant |refined| == Refines(respond, k)
      invariant taskId != "" || previewTaskId != "" ==>
        pid == (if previewTaskId != "" then previewTaskId else taskId)
        && forall r :: 0 <= r < |refined| ==> refined[r] == pid
    {
      var j := respond(k);
      TraceStep(respond, startRefine, taskId, polled, progress, current);
      polled := polled + [current];
      progress := progress + [ShownProgress(j)];
      var step := Decide(j);
      if step.Fail? || step.Show? {
        outcome := if step.Show? then Shown(step.glb) else Errored(step.message);
        return;
      }
      if step.Refine? {
        refined := refined + [pid];
        var started := startRefine(|refined| - 1);
        if started.Err? {
          return Errored(started.error), polled, refined, progress;
        }
        // the nested poll fixes the preview id the same way
        if pid == "" {
          pid := started.value;
        }
        current := started.value;
      }
      k := k + 1;
    }
    outcome := StillPolling;
  }
}
