/** The task endpoints: checking an upload, recording the new task,
    running it under the permit pool, and reporting on tasks.

    The module-level `tasks` dictionary and the semaphore become one
    `TaskRegistry` object. The task id that `uuid4` draws and the clock that
    `time.time` reads are parameters. */
module OcrEndpoint {
  import opened Results
  import opened Strings
  import opened Config
  import opened Schemas
  import OcrService

  // ---------------------------------------------------------------------------
  // The upload's file name
  // ---------------------------------------------------------------------------

  /** `s` without the slashes it ends with. */
  function DropTrailingSlashes(s: string): (r: string)
    ensures |r| <= |s| && r == s[..|r|]
    ensures r == [] || r[|r| - 1] != '/'
  {
    if s != [] && s[|s| - 1] == '/' then DropTrailingSlashes(s[..|s| - 1]) else s
  }

  /** The index of the last `c` in `s`, `str.rfind`. */
  function LastIndexOf(s: string, c: char): (r: Option<nat>)
    ensures r.Some? ==>
      r.value < |s| && s[r.value] == c && forall k :: r.value < k < |s| ==> s[k] != c
    ensures r.None? ==> forall k :: 0 <= k < |s| ==> s[k] != c
  {
    if s == [] then None
    else if s[|s| - 1] == c then Some(|s| - 1)
    else LastIndexOf(s[..|s| - 1], c)
  }

  /** `Path(filename).name`: the last path component. */
  function BaseName(filename: string): string {
    var s := DropTrailingSlashes(filename);
    match LastIndexOf(s, '/')
    case None => s
    case Some(i) => s[i + 1..]
  }

  /** `Path(filename).suffix`: from the last dot of the name, unless the dot
      begins or ends the name. */
  function Suffix(filename: string): string {
    var name := BaseName(filename);
    match LastIndexOf(name, '.')
    case None => ""
    case Some(i) => if 0 < i < |name| - 1 then name[i..] else ""
  }

  /** A suffix is empty or a dot followed by at least one character that is
      neither a dot nor a slash, and it ends the file name. */
  lemma {:induction false} SuffixShape(filename: string)
    ensures var x := Suffix(filename);
      x == "" ||
      (|x| >= 2 && x[0] == '.' && (forall k :: 1 <= k < |x| ==> x[k] != '.' && x[k] != '/')
       && x <= BaseName(filename)[|BaseName(filename)| - |x|..])
  {
    var s := DropTrailingSlashes(filename);
    var name := BaseName(filename);
    assert forall k :: 0 <= k < |name| ==> name[k] != '/';
  }

  /** A name that is a stem and then a dot with a dot-free, slash-free
      extension has that extension as its suffix, letters in their own
      case. */
  lemma {:induction false} SuffixOfStemAndExtension(stem: string, ext: string)
    requires |stem| > 0 && |ext| > 0
    requires forall k :: 0 <= k < |stem| ==> stem[k] != '/'
    requires forall k :: 0 <= k < |ext| ==> ext[k] != '.' && ext[k] != '/'
    ensures Suffix(stem + "." + ext) == "." + ext
  {
    var s := stem + "." + ext;
    assert s[|s| - 1] == ext[|ext| - 1];
    assert DropTrailingSlashes(s) == s;
    assert forall k :: 0 <= k < |s| ==> s[k] != '/' by {
      forall k | 0 <= k < |s| ensures s[k] != '/' {
        if k < |stem| { assert s[k] == stem[k]; }
        else if k > |stem| { assert s[k] == ext[k - |stem| - 1]; }
      }
    }
    assert BaseName(s) == s;
    assert s[|stem|] == '.';
    forall k | |stem| < k < |s| ensures s[k] != '.' {
      assert s[k] == ext[k - |stem| - 1];
    }
    assert LastIndexOf(s, '.') == Some(|stem|);
    assert s[|stem|..] == "." + ext;
  }

  /** A name whose only dot is its first character, such as `.jpg`, has no
      suffix, and neither has a name that ends with its last dot. */
  lemma {:induction false} SuffixNeedsInnerDot(filename: string)
    ensures var name := BaseName(filename); var i := LastIndexOf(name, '.');
      i.None? || i.value == 0 || i.value == |name| - 1 ==> Suffix(filename) == ""
    ensures Suffix(filename) != "" ==> '.' in BaseName(filename)[1..|BaseName(filename)| - 1]
  {
    var name := BaseName(filename);
    var i := LastIndexOf(name, '.');
    if Suffix(filename) != "" {
      assert 0 < i.value < |name| - 1;
      assert name[1..|name| - 1][i.value - 1] == '.';
    }
  }

  // ---------------------------------------------------------------------------
  // Checking a submission
  // ---------------------------------------------------------------------------

  /** The three `400` answers of `upload_and_process`, and the `404` of
      `get_task_status`. */
  datatype HttpError =
    | UnsupportedExtension(extension: string)
    | UnsupportedResolution(resolution: string)
    | UnsupportedTaskType(taskType: string)
    | TaskNotFound

  function StatusCode(e: HttpError): nat {
    if e.TaskNotFound? then 404 else 400
  }

  /** A task type is accepted when it names a template or, as a custom
      prompt, starts with `<`. */
  predicate AcceptedTaskType(taskType: string) {
    taskType in TaskPrompts || StartsWith(taskType, "<")
  }

  /** The checks in order; the lower-cased extension on success. */
  function ValidateSubmission(filename: string, resolution: string, taskType: string): Result<string, HttpError> {
    var ext := Lower(Suffix(filename));
    if ext !in AllowedExtensions then Failure(UnsupportedExtension(ext))
    else if resolution !in ResolutionConfigs then Failure(UnsupportedResolution(resolution))
    else if !AcceptedTaskType(taskType) then Failure(UnsupportedTaskType(taskType))
    else Success(ext)
  }

  /** A submission passes exactly when all three checks pass, and the first
      failing check decides the answer. */
  lemma {:induction false} ValidationCases(filename: string, resolution: string, taskType: string)
    ensures ValidateSubmission(filename, resolution, taskType).Success? <==>
      Lower(Suffix(filename)) in AllowedExtensions && resolution in ResolutionConfigs && AcceptedTaskType(taskType)
    ensures Lower(Suffix(filename)) !in AllowedExtensions ==>
      ValidateSubmission(filename, resolution, taskType) == Failure(UnsupportedExtension(Lower(Suffix(filename))))
    ensures Lower(Suffix(filename)) in AllowedExtensions && resolution !in ResolutionConfigs ==>
      ValidateSubmission(filename, resolution, taskType) == Failure(UnsupportedResolution(resolution))
    ensures ValidateSubmission(filename, resolution, taskType).Success? ==>
      ValidateSubmission(filename, resolution, taskType).value == Lower(Suffix(filename))
  {
  }

  /** An accepted task type that is not a template is used as the prompt
      verbatim, and then it starts with `<`. */
  lemma {:induction false} AcceptedCustomPrompt(taskType: string, referenceText: Option<string>)
    requires AcceptedTaskType(taskType) && taskType !in TaskPrompts
    ensures OcrService.SelectPrompt(taskType, referenceText) == taskType
    ensures StartsWith(OcrService.SelectPrompt(taskType, referenceText), "<")
  {
  }

  /** An upload with no extension, or with a name that only starts with a
      dot, is refused. */
  lemma {:induction false} NoSuffixRejected(filename: string, resolution: string, taskType: string)
    requires Suffix(filename) == ""
    ensures ValidateSubmission(filename, resolution, taskType) == Failure(UnsupportedExtension(""))
  {
    assert Lower("") == "";
  }

  // ---------------------------------------------------------------------------
  // The permit pool's size
  // ---------------------------------------------------------------------------

  /** `MAX_CONCURRENT_OCR_TASKS`, from its variable or else from
      `min(MAX_CONCURRENCY, 3)`; `None` when the text is not an integer or
      the number is negative, which makes the semaphore refuse it. */
  function PermitCapacity(env: Option<string>, maxConcurrency: int): Option<nat> {
    var n := ParseInt(GetEnv(env, IntToString(if maxConcurrency < 3 then maxConcurrency else 3)));
    if n.None? || n.value < 0 then None else Some(n.value)
  }

  /** Unset, the pool holds `min(MAX_CONCURRENCY, 3)` permits, so 3 with the
      built-in `MAX_CONCURRENCY` of 10; set to a numeral, it holds that many,
      unless the numeral has more than 4300 digits and `int()` raises. */
  lemma {:induction false} PermitCapacityDefault(maxConcurrency: int, d: string)
    requires |d| > 0 && AllDigits(d)
    ensures maxConcurrency >= 3 ==> PermitCapacity(None, maxConcurrency) == Some(3)
    ensures 0 <= maxConcurrency < 3 ==> PermitCapacity(None, maxConcurrency) == Some(maxConcurrency)
    ensures maxConcurrency < 0 ==> PermitCapacity(None, maxConcurrency) == None
    ensures MaxConcurrency(None) == Some(10) && PermitCapacity(None, MaxConcurrency(None).value) == Some(3)
    ensures PermitCapacity(Some(d), maxConcurrency) ==
      if |d| <= IntMaxStrDigits then Some(DigitsValue(d)) else None
  {
    ParseIntOfIntToString(if maxConcurrency < 3 then maxConcurrency else 3);
    ParseIntOfIntToString(3);
    MaxConcurrencyValue(d);
    ParseIntOfDigits(d);
  }

  // ---------------------------------------------------------------------------
  // The life of one record
  // ---------------------------------------------------------------------------

  /** `tasks[task_id].status = "processing"`. */
  function Started(rec: TaskStatus): TaskStatus {
    rec.(status := Processing)
  }

  /** The success or the `except` branch of `_process_task`: the outcome of
      `process_ocr_task`, its exception message on failure. */
  function Finished(rec: TaskStatus, outcome: Result<TaskResult, string>, now: real): TaskStatus {
    if outcome.Success? then rec.(status := Completed, result := Some(outcome.value), completedAt := Some(now))
    else rec.(status := Failed, error := Some(outcome.error), completedAt := Some(now))
  }

  /** A new record that is started and then finished is terminal, carries
      the finishing time, and holds a result exactly when it completed and an
      error exactly when it failed; its id and creation time are kept. */
  lemma {:induction false} RecordLifecycle(taskId: string, createdAt: real, outcome: Result<TaskResult, string>, now: real)
    ensures var rec := Finished(Started(NewTaskStatus(taskId, Pending, createdAt)), outcome, now);
      IsTerminal(rec.status) && rec.completedAt == Some(now)
      && rec.taskId == taskId && rec.createdAt == createdAt
      && (rec.status == Completed <==> outcome.Success?)
      && (rec.result.Some? <==> rec.status == Completed)
      && (rec.error.Some? <==> rec.status == Failed)
      && (outcome.Success? ==> rec.result == Some(outcome.value))
      && (outcome.Failure? ==> rec.error == Some(outcome.error))
  {
  }

  /** The shape a record keeps through its life: a result exactly when it
      completed, an error exactly when it failed, and a finishing time
      exactly when it is terminal. */
  predicate WellShaped(rec: TaskStatus) {
    && (rec.result.Some? <==> rec.status == Completed)
    && (rec.error.Some? <==> rec.status == Failed)
    && (rec.completedAt.Some? <==> IsTerminal(rec.status))
  }

  /** Each step of the life cycle keeps that shape: a new pending record has
      it, starting a pending record keeps it, and finishing a processing
      record gives a terminal one that has it. */
  lemma {:induction false} ShapeKept(rec: TaskStatus, outcome: Result<TaskResult, string>, now: real)
    ensures WellShaped(NewTaskStatus(rec.taskId, Pending, rec.createdAt))
    ensures WellShaped(rec) && rec.status == Pending ==> WellShaped(Started(rec))
    ensures WellShaped(rec) && rec.status == Processing ==>
      WellShaped(Finished(rec, outcome, now)) && IsTerminal(Finished(rec, outcome, now).status)
  {
  }

  /** The outcome `_process_task` records for what `process_ocr_task` did. */
  function OutcomeOf(r: Result<TaskResult, OcrService.Error>): (o: Result<TaskResult, string>)
    ensures o.Success? <==> r.Success?
    ensures r.Failure? ==> o.error == OcrService.ErrorMessage(r.error)
  {
    if r.Success? then Success(r.value) else Failure(OcrService.ErrorMessage(r.error))
  }

  // ---------------------------------------------------------------------------
  // The registry
  // ---------------------------------------------------------------------------

  /** The `tasks` dictionary, its insertion order, and the semaphore. */
  class TaskRegistry {
    var tasks: map<string, TaskStatus>
    var order: seq<string>
    const capacity: nat
    var available: nat
    /** The tasks that hold a permit. */
    ghost var running: set<string>

    ghost predicate Valid()
      reads this
    {
      Consistent(tasks, order, running, available, capacity)
    }

    /** An empty registry and a semaphore of `capacity` permits. */
    constructor (capacity: nat)
      ensures Valid()
      ensures tasks == map[] && order == [] && this.capacity == capacity && available == capacity
    {
      tasks := map[];
      order := [];
      this.capacity := capacity;
      available := capacity;
      running := {};
    }

    /** `get_task_status`. */
    function GetTaskStatus(taskId: string): (r: Result<TaskStatus, HttpError>)
      reads this
      ensures r.Success? <==> taskId in tasks
      ensures r.Success? ==> r.value == tasks[taskId]
      ensures r.Failure? ==> StatusCode(r.error) == 404
      ensures Valid() && r.Success? ==> WellShaped(r.value) && r.value.taskId == taskId
    {
      if taskId !in tasks then Failure(TaskNotFound) else Success(tasks[taskId])
    }

    /** `list(tasks.values())`, in the order the tasks were created. */
    function ListTasks(): (r: seq<TaskStatus>)
      reads this
      requires Valid()
      ensures forall k :: 0 <= k < |r| ==> WellShaped(r[k])
    {
      Listed(tasks, order)
    }

    /** `upload_and_process`: the answer to a submission, or its `400`. A
        refused submission changes nothing; an accepted one is recorded by
        `Insert`. */
    method Submit(filename: string, resolution: string, taskType: string, taskId: string, now: real)
      returns (r: Result<OcrResponse, HttpError>)
      requires Valid() && taskId !in tasks
      modifies this
      ensures Valid()
      ensures r.Success? <==> ValidateSubmission(filename, resolution, taskType).Success?
      ensures r.Failure? ==>
        r.error == ValidateSubmission(filename, resolution, taskType).error
        && tasks == old(tasks) && order == old(order)
      ensures r.Success? ==>
        r.value == NewOcrResponse(taskId, "pending")
        && tasks == old(tasks)[taskId := NewTaskStatus(taskId, Pending, now)]
        && order == old(order) + [taskId]
      ensures running == old(running) && available == old(available)
    {
      var checked := ValidateSubmission(filename, resolution, taskType);
      if checked.Failure? {
        return Failure(checked.error);
      }
      Insert(taskId, now);
      r := Success(NewOcrResponse(taskId, "pending"));
    }

    /** `tasks[task_id] = TaskStatus(task_id=..., status="pending",
        created_at=...)`: the new record can be looked up and is listed
        last. */
    method Insert(taskId: string, now: real)
      requires Valid() && taskId !in tasks
      modifies this
      ensures Valid()
      ensures tasks == old(tasks)[taskId := NewTaskStatus(taskId, Pending, now)]
      ensures order == old(order) + [taskId]
      ensures GetTaskStatus(taskId) == Success(NewTaskStatus(taskId, Pending, now))
      ensures ListTasks() == old(Listed(tasks, order)) + [NewTaskStatus(taskId, Pending, now)]
      ensures running == old(running) && available == old(available)
    {
      var rec := NewTaskStatus(taskId, Pending, now);
      ghost var tasks0, order0 := tasks, order;
      ListedExtend(tasks, order, taskId, rec);
      tasks := tasks[taskId := rec];
      order := order + [taskId];
      InsertConsistent(tasks0, order0, running, available, capacity, taskId, now);
      assert Consistent(tasks, order, running, available, capacity);
    }

    /** Entering `async with task_semaphore` and marking the task as
        processing. Without a free permit the task keeps waiting and nothing
        changes. */
    method Begin(taskId: string) returns (admitted: bool)
      requires Valid() && taskId in tasks && tasks[taskId].status == Pending
      modifies this
      ensures Valid()
      ensures admitted <==> old(available) > 0
      ensures admitted ==>
        tasks == old(tasks)[taskId := Started(old(tasks[taskId]))]
        && available == old(available) - 1 && running == old(running) + {taskId}
      ensures !admitted ==> tasks == old(tasks) && available == old(available) && running == old(running)
      ensures order == old(order)
    {
      if available == 0 {
        return false;
      }
      ghost var tasks0, running0, available0 := tasks, running, available;
      available := available - 1;
      running := running + {taskId};
      tasks := tasks[taskId := Started(tasks[taskId])];
      StartConsistent(tasks0, order, running0, available0, capacity, taskId);
      assert Consistent(tasks, order, running, available, capacity);
      admitted := true;
    }

    /** Recording the outcome and leaving the `async with`, which gives the
        permit back. */
    method Finish(taskId: string, outcome: Result<TaskResult, string>, now: real)
      requires Valid() && taskId in running
      modifies this
      ensures Valid()
      ensures tasks == old(tasks)[taskId := Finished(old(tasks[taskId]), outcome, now)]
      ensures available == old(available) + 1 && running == old(running) - {taskId}
      ensures order == old(order)
    {
      ghost var tasks0, running0, available0 := tasks, running, available;
      available := available + 1;
      running := running - {taskId};
      tasks := tasks[taskId := Finished(tasks[taskId], outcome, now)];
      FinishConsistent(tasks0, order, running0, available0, capacity, taskId, outcome, now);
      assert Consistent(tasks, order, running, available, capacity);
    }

    /** `_process_task`: once admitted, run `process_ocr_task` and record its
        outcome at time `now`. `None` is a task that found no free permit and
        was not started. */
    method ProcessTask(taskId: string, imagePath: string, resolution: string, taskType: string,
                       referenceText: Option<string>, includeVisualization: bool,
                       loaded: Option<OcrService.Image>, processor: OcrService.Processor?,
                       tokenizer: OcrService.Tokenizer, engine: Option<OcrService.Engine>, now: real)
      returns (r: Option<Result<TaskResult, OcrService.Error>>)
      requires Valid() && taskId in tasks && tasks[taskId].status == Pending
      modifies this, processor
      ensures Valid()
      ensures r.Some? <==> old(available) > 0
      ensures r.Some? ==>
        r.value == OcrService.ProcessOcrResult(taskId, imagePath, resolution, taskType, referenceText,
                                               includeVisualization, loaded, processor != null, tokenizer, engine)
        && tasks == old(tasks)[taskId := Finished(Started(old(tasks[taskId])), OutcomeOf(r.value), now)]
      ensures r.None? ==> tasks == old(tasks)
      ensures available == old(available) && running == old(running) && order == old(order)
      ensures processor != null ==>
        processor.imageSize == old(processor.imageSize) && processor.baseSize == old(processor.baseSize)
    {
      var admitted := Begin(taskId);
      if !admitted {
        return None;
      }
      ghost var started := tasks;
      var outcome := OcrService.ProcessOcrTask(taskId, imagePath, resolution, taskType, referenceText,
                                               includeVisualization, loaded, processor, tokenizer, engine);
      Finish(taskId, OutcomeOf(outcome), now);
      UpdateTwice(old(tasks), taskId, started[taskId], Finished(started[taskId], OutcomeOf(outcome), now));
      r := Some(outcome);
    }
  }

  /** The registry's invariant: the order lists every key once, each record
      sits under its own id, the processing records are the ones holding a
      permit, and the permits held and free add up to the pool's size. */
  ghost predicate Consistent(tasks: map<string, TaskStatus>, order: seq<string>, running: set<string>,
                             available: nat, capacity: nat)
  {
    (forall i, j :: 0 <= i < j < |order| ==> order[i] != order[j])
    && (forall i :: 0 <= i < |order| ==> order[i] in tasks)
    && (forall id :: id in tasks ==> id in order)
    && (forall id :: id in tasks ==> tasks[id].taskId == id)
    && (forall id :: id in tasks ==> WellShaped(tasks[id]))
    && (forall id :: id in tasks ==> (tasks[id].status == Processing <==> id in running))
    && running <= tasks.Keys
    && available + |running| == capacity
  }

  lemma {:induction false} InsertConsistent(tasks: map<string, TaskStatus>, order: seq<string>, running: set<string>,
                                            available: nat, capacity: nat, id: string, now: real)
    requires Consistent(tasks, order, running, available, capacity) && id !in tasks
    ensures Consistent(tasks[id := NewTaskStatus(id, Pending, now)], order + [id], running, available, capacity)
  {
    var o := order + [id];
    forall i | 0 <= i < |order| ensures o[i] == order[i] && o[i] != id {}
  }

  lemma {:induction false} StartConsistent(tasks: map<string, TaskStatus>, order: seq<string>, running: set<string>,
                                           available: nat, capacity: nat, id: string)
    requires Consistent(tasks, order, running, available, capacity)
    requires id in tasks && tasks[id].status == Pending && available > 0
    ensures Consistent(tasks[id := Started(tasks[id])], order, running + {id}, available - 1, capacity)
  {
  }

  lemma {:induction false} FinishConsistent(tasks: map<string, TaskStatus>, order: seq<string>, running: set<string>,
                                            available: nat, capacity: nat, id: string,
                                            outcome: Result<TaskResult, string>, now: real)
    requires Consistent(tasks, order, running, available, capacity) && id in running
    ensures Consistent(tasks[id := Finished(tasks[id], outcome, now)], order, running - {id}, available + 1, capacity)
  {
    assert running == (running - {id}) + {id};
  }

  /** Under the invariant the tasks in processing are exactly the ones
      holding a permit, so there are never more of them than the pool has
      permits, and every stored record has its life-cycle shape. */
  lemma {:induction false} ProcessingBounded(tasks: map<string, TaskStatus>, order: seq<string>, running: set<string>,
                                             available: nat, capacity: nat)
    requires Consistent(tasks, order, running, available, capacity)
    ensures (set id | id in tasks && tasks[id].status == Processing) == running
    ensures |set id | id in tasks && tasks[id].status == Processing| <= capacity
    ensures forall id :: id in tasks ==> WellShaped(tasks[id])
  {
    assert (set id | id in tasks && tasks[id].status == Processing) == running;
  }

  /** A second update of the same key overrides the first. */
  lemma {:induction false} UpdateTwice(m: map<string, TaskStatus>, k: string, a: TaskStatus, b: TaskStatus)
    ensures m[k := a][k := b] == m[k := b]
  {
  }

  /** The records of `order`, in that order. */
  function Listed(tasks: map<string, TaskStatus>, order: seq<string>): (r: seq<TaskStatus>)
    requires forall i :: 0 <= i < |order| ==> order[i] in tasks
    ensures |r| == |order|
    ensures forall i :: 0 <= i < |order| ==> r[i] == tasks[order[i]]
  {
    if order == [] then []
    else Listed(tasks, order[..|order| - 1]) + [tasks[order[|order| - 1]]]
  }

  /** Adding a new key at the end of the order adds its record at the end
      of the listing and leaves the rest as it was. */
  lemma {:induction false} ListedExtend(tasks: map<string, TaskStatus>, order: seq<string>, id: string, rec: TaskStatus)
    requires forall i :: 0 <= i < |order| ==> order[i] in tasks
    requires id !in tasks
    ensures Listed(tasks[id := rec], order + [id]) == Listed(tasks, order) + [rec]
  {
    var t := tasks[id := rec];
    var o := order + [id];
    assert o[..|o| - 1] == order;
    assert Listed(t, o) == Listed(t, order) + [t[id]];
    var a, b := Listed(t, order), Listed(tasks, order);
    forall i | 0 <= i < |order| ensures a[i] == b[i] {
      assert order[i] != id;
    }
    assert a == b;
  }

  /** A record is listed exactly when it is in the registry, and each
      appears once. */
  lemma {:induction false} ListingComplete(tasks: map<string, TaskStatus>, order: seq<string>)
    requires forall i :: 0 <= i < |order| ==> order[i] in tasks
    requires forall id :: id in tasks ==> id in order
    requires forall i, j :: 0 <= i < j < |order| ==> order[i] != order[j]
    requires forall id :: id in tasks ==> tasks[id].taskId == id
    ensures |Listed(tasks, order)| == |tasks|
    ensures forall id :: id in tasks ==> tasks[id] in Listed(tasks, order)
    ensures forall i, j :: 0 <= i < j < |order| ==> Listed(tasks, order)[i].taskId != Listed(tasks, order)[j].taskId
  {
    var l := Listed(tasks, order);
    forall id | id in tasks ensures tasks[id] in l {
      var i :| 0 <= i < |order| && order[i] == id;
      assert l[i] == tasks[id];
    }
    assert tasks.Keys == set i | 0 <= i < |order| :: order[i];
    DistinctCard(order);
  }

  /** A sequence without repeats has as many distinct elements as entries. */
  lemma {:induction false} DistinctCard(s: seq<string>)
    requires forall i, j :: 0 <= i < j < |s| ==> s[i] != s[j]
    ensures |set i | 0 <= i < |s| :: s[i]| == |s|
  {
    if s != [] {
      var init := s[..|s| - 1];
      DistinctCard(init);
      var a := set i | 0 <= i < |init| :: init[i];
      var b := set i | 0 <= i < |s| :: s[i];
      assert b == a + {s[|s| - 1]};
      assert s[|s| - 1] !in a;
    }
  }
}
