// The HTTP handlers of the task-based blueprint: the transplant request is validated and handed
// to a background task, the lookup maps engine errors to 400 answers, and the status endpoint
// reports a task's state and, once it is ready, its result or error.
module Api {
  import opened Base
  import Hg
  import Catalog
  import Engine
  import Actions
  import Guarantees
  import opened Web

  /** `flask_transplant`: the validation chain, then submission of the task whose id is `taskId`. */
  function FlaskTransplant(repos: seq<Catalog.Entry>, params: Option<Json>, taskId: string): (o: Outcome)
    ensures o.Respond? && o.response.status == 200 <==> Admissible(repos, params)
    ensures Admissible(repos, params) ==> o.response.body == map["task" := Str(taskId)]
    ensures CheckRequest(repos, params).Reject? ==>
      o == Respond(BadRequest(CheckRequest(repos, params).message))
    ensures o.Crash? <==> CheckRequest(repos, params).Malformed?
    ensures !o.Escape?
  {
    match CheckRequest(repos, params)
    case Reject(message) => Respond(BadRequest(message))
    case Malformed => Crash
    case Submit(_, _, _) => Respond(Reply(map["task" := Str(taskId)]))
  }

  /** The error mapping of `flask_lookup`: the ceiling, a transplant error and a backend failure
      answer 400; an unknown revision escapes. */
  function LookupResponse(r: Result<seq<Hg.Commit>, Engine.Error>): (o: Outcome)
    ensures r.Ok? ==> o == Respond(Reply(map["revset" := RevsetJson(r.value)]))
    ensures o.Escape? <==> r.Err? && (r.error.PlainException? || (r.error.Backend? && r.error.failure.UnknownRevision?))
    ensures o.Escape? ==> o.error == r.error
    ensures r.Err? && r.error.Backend? && r.error.failure.Mercurial? ==>
      o == Respond(BadRequest(r.error.failure.error.stderr))
    ensures r.Err? && (r.error.TooManyCommits? || r.error.TransplantError?) ==>
      o == Respond(BadRequest(r.error.message))
    ensures o.Respond? ==> (o.response.status == 200 <==> r.Ok?)
  {
    match r
    case Ok(commits) => Respond(Reply(map["revset" := RevsetJson(commits)]))
    case Err(Backend(Mercurial(e))) => Respond(BadRequest(e.stderr))
    case Err(TooManyCommits(m)) => Respond(BadRequest(m))
    case Err(TransplantError(m)) => Respond(BadRequest(m))
    case Err(e) => Escape(e)
  }

  /** `flask_lookup` on the repository `name`: an empty or missing revset is answered at once,
      touching nothing; otherwise the answer is the lookup's result mapped by `LookupResponse`. */
  method FlaskLookup(ws: Hg.Workspace, repos: seq<Catalog.Entry>, name: string, revset: Option<string>)
    returns (o: Outcome)
    modifies ws
    ensures revset.None? || revset.value == "" ==>
      o == Respond(BadRequest("No revset")) && ws.Now() == old(ws.Now())
    ensures revset.Some? && revset.value != "" ==>
      var r := Engine.GetRevsetInfo(ws.oracle, repos, old(ws.Now()), name, revset.value);
      o == LookupResponse(r.result) && ws.Now() == r.after
  {
    if revset.None? || revset.value == "" {
      return Respond(BadRequest("No revset"));
    }
    var r := Actions.GetRevsetInfo(ws, repos, name, revset.value);
    o := LookupResponse(r);
  }

  /** What the lookup answers: 200 with exactly the changesets the revset selects in the clone
      when they are within the ceiling, and 400 naming the count when they are more. */
  lemma LookupAnswers(o: Hg.Oracle, repos: seq<Catalog.Entry>, s: Hg.State, name: string, revset: string)
    ensures var r := Engine.GetRevsetInfo(o, repos, s, name, revset); var out := LookupResponse(r.result);
      (out.Respond? && out.response.status == 200 ==>
         name in r.after.copies
         && var sel := Hg.Resolve(r.after.copies[name], r.after.remotes, o.interpret, Hg.Expr(revset));
         sel.Some? && |sel.value| <= Engine.MaxCommits
         && out.response == Reply(map["revset" := RevsetJson(sel.value)]))
      && (r.result.Err? && r.result.error.TooManyCommits? ==>
            name in r.after.copies
            && var sel := Hg.Resolve(r.after.copies[name], r.after.remotes, o.interpret, Hg.Expr(revset));
            sel.Some? && |sel.value| > Engine.MaxCommits
            && out == Respond(BadRequest(Engine.TooManyCommitsMessage(|sel.value|, Engine.MaxCommits))))
    ensures var c := Engine.Clone(o, repos, s, name); var out := LookupResponse(Engine.GetRevsetInfo(o, repos, s, name, revset).result);
      (out.Respond? && out.response.status == 200 <==>
         c.result.Ok? && var l := Engine.OptimisticLog(o, c.after, name, Hg.Expr(revset));
         l.result.Ok? && |l.result.value| <= Engine.MaxCommits)
      && (c.result.Ok? ==>
            var l := Engine.OptimisticLog(o, c.after, name, Hg.Expr(revset));
            (l.result.Ok? && |l.result.value| <= Engine.MaxCommits ==>
               out == Respond(Reply(map["revset" := RevsetJson(l.result.value)])))
            && (l.result.Ok? && |l.result.value| > Engine.MaxCommits ==>
                  out == Respond(BadRequest(Engine.TooManyCommitsMessage(|l.result.value|, Engine.MaxCommits)))))
  {
    Guarantees.GetRevsetInfoCeiling(o, repos, s, name, revset);
  }

  /** How a background task ended, as `task.get()` reports it. */
  datatype TaskOutcome =
    | Returned(fields: map<string, Json>)   // the dict the task returned
    | Raised(message: string)               // the message of the exception it raised

  /** What the status endpoint learns about a task from the queue. */
  datatype TaskView = TaskView(state: string, ready: bool, outcome: TaskOutcome)

  /** The transplant task: the engine's tip, or a backend failure's stderr, is returned as a dict;
      any other error is raised. The text of an unknown-revision exception comes from the
      repository module and is given as `unknownRevisionText`. */
  function TaskOutcomeOf(r: Result<Hg.Node, Engine.Error>, unknownRevisionText: string): (t: TaskOutcome)
    ensures r.Ok? ==> t == Returned(map["tip" := Str(r.value)])
    ensures t.Returned? && "error" in t.fields <==> r.Err? && r.error.Backend? && r.error.failure.Mercurial?
    ensures t.Returned? && "error" in t.fields ==> t.fields["error"] == Str(r.error.failure.error.stderr)
    ensures t.Raised? <==> r.Err? && !(r.error.Backend? && r.error.failure.Mercurial?)
  {
    match r
    case Ok(tip) => Returned(map["tip" := Str(tip)])
    case Err(Backend(Mercurial(e))) => Returned(map["error" := Str(e.stderr)])
    case Err(Backend(UnknownRevision(_))) => Raised(unknownRevisionText)
    case Err(TooManyCommits(m)) => Raised(m)
    case Err(TransplantError(m)) => Raised(m)
    case Err(PlainException(m)) => Raised(m)
  }

  /** The answer of the status endpoint: the id and state always, and once the task is ready
      exactly one of `error` and `result`. */
  function StatusResponse(taskId: Option<string>, task: TaskView): (r: Response)
    ensures taskId.None? || taskId.value == "" <==> r == BadRequest("No task")
    ensures taskId.Some? && taskId.value != "" ==>
      r.status == 200 && "id" in r.body && r.body["id"] == Str(taskId.value)
      && "state" in r.body && r.body["state"] == Str(task.state)
      && !("error" in r.body && "result" in r.body)
      && (task.ready <==> "error" in r.body || "result" in r.body)
    ensures taskId.Some? && taskId.value != "" && !task.ready ==> r.body.Keys == {"id", "state"}
  {
    if taskId.None? || taskId.value == "" then BadRequest("No task")
    else
      var base := map["id" := Str(taskId.value), "state" := Str(task.state)];
      if !task.ready then Reply(base)
      else match task.outcome
        case Raised(m) => Reply(base["error" := Str(m)])
        case Returned(f) =>
          if "error" in f then Reply(base["error" := f["error"]]) else Reply(base["result" := Obj(f)])
  }

  /** `flask_status`: builds the answer in place, adding `error` or `result` once the task is ready. */
  method FlaskStatus(taskId: Option<string>, task: TaskView) returns (r: Response)
    ensures r == StatusResponse(taskId, task)
  {
    if taskId.None? || taskId.value == "" {
      return BadRequest("No task");
    }
    var result := map["id" := Str(taskId.value), "state" := Str(task.state)];
    if task.ready {
      match task.outcome {
        case Raised(m) =>
          result := result["error" := Str(m)];
        case Returned(value) =>
          if "error" in value {
            result := result["error" := value["error"]];
          } else {
            result := result["result" := Obj(value)];
          }
      }
    }
    r := Reply(result);
  }

  /** What a client polling a finished transplant sees: the new tip as the result when the engine
      succeeded, and otherwise an error, which for a backend failure is its stderr. */
  lemma FinishedTransplantStatus(taskId: string, state: string, r: Result<Hg.Node, Engine.Error>,
                                 unknownRevisionText: string)
    requires taskId != ""
    ensures var resp := StatusResponse(Some(taskId), TaskView(state, true, TaskOutcomeOf(r, unknownRevisionText)));
      resp.status == 200
      && ("result" in resp.body <==> r.Ok?)
      && (r.Ok? ==> resp.body["result"] == Obj(map["tip" := Str(r.value)]))
      && ("error" in resp.body <==> r.Err?)
      && (r.Err? && r.error.Backend? && r.error.failure.Mercurial? ==>
            resp.body["error"] == Str(r.error.failure.error.stderr))
  {
  }
}
