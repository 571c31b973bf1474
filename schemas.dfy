/** The service's record shapes and their defaults. A Python `Optional`
    field is an `Option`, a float timestamp is a `real`, and the free-form
    `result` dictionary of a task is the `TaskResult` record that
    `process_ocr_task` builds. */
module Schemas {
  import opened Results

  /** The four states of a task, with the names the API reports. */
  datatype Status = Pending | Processing | Completed | Failed

  function StatusName(s: Status): (name: string) {
    match s
    case Pending => "pending"
    case Processing => "processing"
    case Completed => "completed"
    case Failed => "failed"
  }

  /** The status a name stands for, if any. */
  function StatusFromName(name: string): (r: Option<Status>) {
    if name == "pending" then Some(Pending)
    else if name == "processing" then Some(Processing)
    else if name == "completed" then Some(Completed)
    else if name == "failed" then Some(Failed)
    else None
  }

  /** Names and statuses correspond one to one. */
  lemma {:induction false} StatusNames(s: Status, name: string)
    ensures StatusFromName(StatusName(s)) == Some(s)
    ensures StatusFromName(name) == Some(s) ==> StatusName(s) == name
  {
  }

  /** A task has finished once it is completed or failed. */
  predicate IsTerminal(s: Status) {
    s == Completed || s == Failed
  }

  /** A corner of a bounding box, in pixels. */
  datatype Point = Point(x: int, y: int)

  /** `OCRResult`: one detected rectangle. */
  datatype OcrResult = OcrResult(labelText: string, text: string, confidence: real, bbox: seq<Point>)

  /** The dictionary `process_ocr_task` returns. The last three entries exist
      only when visualization ran. */
  datatype TaskResult = TaskResult(
    text: string,
    imagePath: string,
    prompt: string,
    resolution: string,
    taskType: string,
    visualizationPath: Option<string>,
    processedText: Option<string>,
    markdownPath: Option<string>)

  /** `TaskStatus`. */
  datatype TaskStatus = TaskStatus(
    taskId: string,
    status: Status,
    result: Option<TaskResult>,
    error: Option<string>,
    createdAt: real,
    completedAt: Option<real>)

  /** `TaskStatus(task_id=..., status=..., created_at=...)`: the three required
      fields given, the optional ones at their `None` default. */
  function NewTaskStatus(taskId: string, status: Status, createdAt: real): (r: TaskStatus)
    ensures r.taskId == taskId && r.status == status && r.createdAt == createdAt
    ensures r.result.None? && r.error.None? && r.completedAt.None?
  {
    TaskStatus(taskId, status, None, None, createdAt, None)
  }

  /** `OCRRequest`. */
  datatype OcrRequest = OcrRequest(
    prompt: Option<string>,
    includeVisualization: bool,
    resolution: string,
    taskType: string,
    referenceText: Option<string>)

  /** `OCRRequest()`: every field at its default. */
  function DefaultOcrRequest(): (r: OcrRequest)
    ensures r.includeVisualization && r.resolution == "gundam" && r.taskType == "markdown"
    ensures r.prompt.None? && r.referenceText.None?
  {
    OcrRequest(None, true, "gundam", "markdown", None)
  }

  /** `OCRResponse`. */
  datatype OcrResponse = OcrResponse(
    taskId: string,
    status: string,
    result: Option<TaskResult>,
    error: Option<string>)

  /** `OCRResponse(task_id=..., status=...)`: no result and no error. */
  function NewOcrResponse(taskId: string, status: string): (r: OcrResponse)
    ensures r.taskId == taskId && r.status == status
    ensures r.result.None? && r.error.None?
  {
    OcrResponse(taskId, status, None, None)
  }
}
