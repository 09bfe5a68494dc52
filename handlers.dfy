/**
 * The request handlers of transformers/gateways/http/controllers/v1_handlers.go:
 * `GET /tasks/{taskID}/` and `POST /tasks/`. A response is modelled as the
 * status code and the value that would be written; JSON marshalling and the
 * `http.ResponseWriter` are not.
 */
module Controllers {
  import opened Wrappers
  import opened GoStrings
  import Metacrawl
  import MetaExtract

  /** The values the handlers marshal to JSON. */
  datatype JsonBody =
    | ErrorMessage(error: string)    // {"error": ...}
    | Message(text: string)          // a bare JSON string
    | TaskCreated(taskID: string)    // {"taskID": ...}

  datatype HttpResponse =
    | NoResponse                                                   // the handler writes nothing
    | JsonResponse(code: int, body: JsonBody)
    | CsvResponse(code: int, filename: string, data: seq<seq<string>>)

  // ---------------------------------------------------------------------------
  // GetTask
  // ---------------------------------------------------------------------------

  /** The four ways `GetTask` can end. */
  datatype GetOutcome = NotFound | StillRunning | Deliver(delete: bool) | Unanswered

  /**
   * The decision `GetTask` takes from whether the task exists, its status and
   * the `delete` query value. Only a completed task is delivered, and only a
   * delivered task can be deleted, and only when `delete` is exactly "1".
   */
  function DecideGetTask(found: bool, status: string, deleteParam: string): (d: GetOutcome)
    ensures d == NotFound <==> !found
    ensures d == StillRunning <==> found && status == Metacrawl.TaskInProgress
    ensures d.Deliver? <==> found && status == Metacrawl.TaskCompleted
    ensures d == Deliver(true) <==> found && status == Metacrawl.TaskCompleted && deleteParam == "1"
  {
    if !found then NotFound
    else if status == Metacrawl.TaskInProgress then StillRunning
    else if status == Metacrawl.TaskCompleted then Deliver(deleteParam == "1")
    else Unanswered
  }

  /** What `GetTask` writes for each outcome; a completed task's result is sent as `<taskID>.csv`. */
  function GetResponse(d: GetOutcome, taskID: string, rendered: seq<seq<string>>): (r: HttpResponse)
    ensures d.NotFound? <==> r == JsonResponse(404, ErrorMessage("task not found"))
    ensures d.StillRunning? <==> r == JsonResponse(204, Message("task in progress"))
    ensures d.Deliver? <==> r == CsvResponse(200, taskID + ".csv", rendered)
    ensures d.Unanswered? <==> r.NoResponse?
  {
    match d
    case NotFound => JsonResponse(404, ErrorMessage("task not found"))
    case StillRunning => JsonResponse(204, Message("task in progress"))
    case Deliver(_) => CsvResponse(200, taskID + ".csv", rendered)
    case Unanswered => NoResponse
  }

  /** A task that has not started, or has any status but the two known ones, gets no response. */
  lemma NotStartedUnanswered(deleteParam: string)
    ensures DecideGetTask(true, Metacrawl.TaskNotStarted, deleteParam) == Unanswered
  {
  }

  /** Only a completed task ever gets a 200, and a 200 is always a CSV file named after the task. */
  lemma OnlyCompletedDelivered(found: bool, status: string, deleteParam: string, taskID: string, rendered: seq<seq<string>>)
    requires var r := GetResponse(DecideGetTask(found, status, deleteParam), taskID, rendered); !r.NoResponse? && r.code == 200
    ensures found && status == Metacrawl.TaskCompleted
    ensures GetResponse(DecideGetTask(found, status, deleteParam), taskID, rendered) == CsvResponse(200, taskID + ".csv", rendered)
  {
  }

  // ---------------------------------------------------------------------------
  // PostTask
  // ---------------------------------------------------------------------------

  /**
   * The URL list `PostTask` makes of a request body: the pieces between line
   * breaks. It is never empty, no URL holds a line break, and joining the
   * URLs with line breaks gives the body back.
   */
  function TaskUrls(body: string): (urls: seq<string>)
    ensures |urls| >= 1
    ensures forall k :: 0 <= k < |urls| ==> '\n' !in urls[k]
    ensures Join(urls, '\n') == body
  {
    JoinSplit(body, '\n');
    Split(body, '\n')
  }

  /** An empty body gives one empty URL. */
  lemma EmptyBodyOneEmptyUrl()
    ensures TaskUrls("") == [""]
  {
  }

  /** A body ending in a line break gives an empty last URL. */
  lemma TrailingNewlineEmptyUrl(body: string)
    ensures TaskUrls(body + "\n") == TaskUrls(body) + [""]
  {
    SplitTrailingSeparator(body, '\n');
  }

  /** Lines without line breaks are each posted as one URL. */
  lemma LinesArePostedAsUrls(lines: seq<string>)
    requires |lines| >= 1
    requires forall k :: 0 <= k < |lines| ==> '\n' !in lines[k]
    ensures TaskUrls(Join(lines, '\n')) == lines
  {
    SplitJoin(lines, '\n');
  }

  // ---------------------------------------------------------------------------
  // The controller
  // ---------------------------------------------------------------------------

  /** The v1 controller and the service it works on. */
  class V1 {
    const metaCrawlSvc: Metacrawl.MetaCrawl

    /** `NewV1`. */
    constructor (metaCrawlService: Metacrawl.MetaCrawl)
      ensures metaCrawlSvc == metaCrawlService
    {
      metaCrawlSvc := metaCrawlService;
    }

    /**
     * `GetTask` for task `taskID` with the query value `deleteParam`: the
     * response `DecideGetTask` selects, and the task removed exactly when
     * the outcome is a delivery with deletion.
     */
    method GetTask(taskID: string, deleteParam: string) returns (resp: HttpResponse)
      modifies metaCrawlSvc`tasks
      ensures old(metaCrawlSvc.Valid()) ==> metaCrawlSvc.Valid()
      ensures var found := taskID in old(metaCrawlSvc.tasks);
        var task := old(metaCrawlSvc.TaskByID(taskID));
        var d := DecideGetTask(found, if found then task.status else "", deleteParam);
        && resp == GetResponse(d, taskID, if found then task.rows else [])
        && metaCrawlSvc.tasks == (if d == Deliver(true) then old(metaCrawlSvc.tasks) - {taskID} else old(metaCrawlSvc.tasks))
    {
      var shouldDeleteTask := false;
      if deleteParam == "1" {
        shouldDeleteTask := true;
      }
      var task := metaCrawlSvc.TaskByID(taskID);
      if task == null {
        resp := JsonResponse(404, ErrorMessage("task not found"));
        return;
      }
      var taskStatus := task.Status();
      if taskStatus == Metacrawl.TaskInProgress {
        resp := JsonResponse(204, Message("task in progress"));
        return;
      } else if taskStatus == Metacrawl.TaskCompleted {
        if shouldDeleteTask {
          metaCrawlSvc.DeleteTaskByID(taskID);
        }
        resp := CsvResponse(200, taskID + ".csv", task.Render());
      } else {
        resp := NoResponse;
      }
    }

    /**
     * `PostTask`. `body` is the request body, `None` when reading it fails;
     * `freshID` is the ID the service generates for the new task.
     */
    method PostTask(body: Option<string>, freshID: string) returns (resp: HttpResponse)
      modifies metaCrawlSvc`tasks
      ensures old(metaCrawlSvc.Valid()) ==> metaCrawlSvc.Valid()
      ensures body.None? ==>
        resp == JsonResponse(400, ErrorMessage("bad request")) && metaCrawlSvc.tasks == old(metaCrawlSvc.tasks)
      ensures body.Some? ==>
        && resp == JsonResponse(201, TaskCreated(freshID))
        && freshID in metaCrawlSvc.tasks && fresh(metaCrawlSvc.tasks[freshID])
        && metaCrawlSvc.tasks == old(metaCrawlSvc.tasks)[freshID := metaCrawlSvc.tasks[freshID]]
        && metaCrawlSvc.tasks[freshID].urls == TaskUrls(body.value)
        && metaCrawlSvc.tasks[freshID].status == Metacrawl.TaskNotStarted
        && metaCrawlSvc.tasks[freshID].rows == []
        && metaCrawlSvc.tasks[freshID].timeout == Metacrawl.TaskTimeoutMillis
        && metaCrawlSvc.tasks[freshID].metaAttrRegistry == MetaExtract.MetaAttrRegistry()
        && metaCrawlSvc.tasks[freshID].metaCrawlSvc == metaCrawlSvc
    {
      if body.None? {
        resp := JsonResponse(400, ErrorMessage("bad request"));
        return;
      }
      var taskURLs := TaskUrls(body.value);
      if |taskURLs| == 0 {
        resp := JsonResponse(400, ErrorMessage("bad request"));
        return;
      }
      var newTaskID := metaCrawlSvc.AddTask(taskURLs, freshID);
      resp := JsonResponse(201, TaskCreated(newTaskID));
    }
  }
}
