// The older blueprint, which runs the engine inside the request: a backend failure anywhere in a
// transplant, the clone of the destination included, is answered with 409 and the failure's
// details, while every other error escapes the handler.
module Legacy {
  import opened Base
  import Hg
  import Catalog
  import Engine
  import Actions
  import Guarantees
  import opened Web

  /** The `details` of a 409 answer: the fields of the backend's exception. */
  function Details(e: Hg.HgError): (j: Json)
    ensures j.Obj? && j.fields.Keys == {"cmd", "returncode", "stdout", "stderr"}
    ensures j.fields["cmd"] == Str(e.cmd) && j.fields["returncode"] == Int(e.returncode)
    ensures j.fields["stdout"] == Str(e.stdout) && j.fields["stderr"] == Str(e.stderr)
  {
    Obj(map["cmd" := Str(e.cmd), "returncode" := Int(e.returncode), "stdout" := Str(e.stdout),
            "stderr" := Str(e.stderr)])
  }

  /** How `transplant` answers the engine's result: the new tip, or 409 for a backend failure. */
  function TransplantResponse(r: Result<Hg.Node, Engine.Error>): (o: Outcome)
    ensures r.Ok? <==> o.Respond? && o.response.status == 200
    ensures r.Ok? ==> o.response.body == map["tip" := Str(r.value)]
    ensures o.Respond? && o.response.status == 409 <==> r.Err? && r.error.Backend? && r.error.failure.Mercurial?
    ensures o.Respond? && o.response.status == 409 ==>
      o.response.body == map["error" := Str("Transplant failed"), "details" := Details(r.error.failure.error)]
    ensures o.Escape? <==> r.Err? && !(r.error.Backend? && r.error.failure.Mercurial?)
    ensures o.Escape? ==> o.error == r.error
  {
    match r
    case Ok(tip) => Respond(Reply(map["tip" := Str(tip)]))
    case Err(Backend(Mercurial(e))) =>
      Respond(Response(409, map["error" := Str("Transplant failed"), "details" := Details(e)]))
    case Err(e) => Escape(e)
  }

  /** The error mapping of the older `flask_lookup`: only the ceiling and a backend failure are caught. */
  function LookupResponse(r: Result<seq<Hg.Commit>, Engine.Error>): (o: Outcome)
    ensures r.Ok? ==> o == Respond(Reply(map["revset" := RevsetJson(r.value)]))
    ensures r.Err? && r.error.TooManyCommits? ==> o == Respond(BadRequest(r.error.message))
    ensures r.Err? && r.error.Backend? && r.error.failure.Mercurial? ==>
      o == Respond(BadRequest(r.error.failure.error.stderr))
    ensures o.Escape? <==> r.Err? && !r.error.TooManyCommits? && !(r.error.Backend? && r.error.failure.Mercurial?)
    ensures o.Escape? ==> o.error == r.error
  {
    match r
    case Ok(commits) => Respond(Reply(map["revset" := RevsetJson(commits)]))
    case Err(Backend(Mercurial(e))) => Respond(BadRequest(e.stderr))
    case Err(TooManyCommits(m)) => Respond(BadRequest(m))
    case Err(e) => Escape(e)
  }

  /** The older `flask_lookup`: an empty or missing revset is answered at once, touching
      nothing; otherwise the answer is the lookup's result mapped by `LookupResponse`. */
  method FlaskLookup(ws: Hg.Workspace, repos: seq<Catalog.Entry>, name: string, revset: Option<string>)
    returns (o: Outcome)
    modifies ws
    ensures revset.None? || revset.value == "" ==>
      o == Respond(BadRequest("No revset")) && ws.Now() == old(ws.Now())
    ensures revset.Some? && revset.value != "" ==>
      var r := Engine.GetRevsetInfo(ws.oracle, repos, old(ws.Now()), name, revset.value);
      o == LookupResponse(r.result) && ws.Now() == r.after
  {
    if revset.None? || revset.value == "" {
      return Respond(BadRequest("No revset"));
    }
    var r := Actions.GetRevsetInfo(ws, repos, name, revset.value);
    o := LookupResponse(r);
  }

  /** The older lookup answers 200 with exactly the changesets the revset selects in the clone
      when they are within the ceiling, and 400 naming the count when they are more. */
  lemma LookupAnswers(o: Hg.Oracle, repos: seq<Catalog.Entry>, s: Hg.State, name: string, revset: string)
    ensures var r := Engine.GetRevsetInfo(o, repos, s, name, revset); var out := LookupResponse(r.result);
      (out.Respond? && out.response.status == 200 ==>
         name in r.after.copies
         && var sel := Hg.Resolve(r.after.copies[name], r.after.remotes, o.interpret, Hg.Expr(revset));
         sel.Some? && |sel.value| <= Engine.MaxCommits
         && out.response == Reply(map["revset" := RevsetJson(sel.value)]))
      && (r.result.Err? && r.result.error.TooManyCommits? ==>
            name in r.after.copies
            && var sel := Hg.Resolve(r.after.copies[name], r.after.remotes, o.interpret, Hg.Expr(revset));
            sel.Some? && |sel.value| > Engine.MaxCommits
            && out == Respond(BadRequest(Engine.TooManyCommitsMessage(|sel.value|, Engine.MaxCommits))))
    ensures var c := Engine.Clone(o, repos, s, name); var out := LookupResponse(Engine.GetRevsetInfo(o, repos, s, name, revset).result);
      (out.Respond? && out.response.status == 200 <==>
         c.result.Ok? && var l := Engine.OptimisticLog(o, c.after, name, Hg.Expr(revset));
         l.result.Ok? && |l.result.value| <= Engine.MaxCommits)
      && (c.result.Ok? ==>
            var l := Engine.OptimisticLog(o, c.after, name, Hg.Expr(revset));
            (l.result.Ok? && |l.result.value| <= Engine.MaxCommits ==>
               out == Respond(Reply(map["revset" := RevsetJson(l.result.value)])))
            && (l.result.Ok? && |l.result.value| > Engine.MaxCommits ==>
                  out == Respond(BadRequest(Engine.TooManyCommitsMessage(|l.result.value|, Engine.MaxCommits)))))
  {
    Guarantees.GetRevsetInfoCeiling(o, repos, s, name, revset);
  }

  /** The older `transplant`: the engine's run with the dialect whose unknown item is a bare
      exception, answered by `TransplantResponse`. */
  method Transplant(ws: Hg.Workspace, repos: seq<Catalog.Entry>, src: string, dst: string, items: seq<Engine.Item>)
    returns (o: Outcome)
    modifies ws
    ensures var r := Engine.Transplant(ws.oracle, repos, old(ws.Now()), src, dst, items, Engine.Legacy);
      o == TransplantResponse(r.result) && ws.Now() == r.after
  {
    var r := Actions.Transplant(ws, repos, src, dst, items, Engine.Legacy);
    o := TransplantResponse(r);
  }

  /** A destination that cannot be cloned is a backend failure too: 409, after the one clone
      command, with nothing pushed. */
  lemma CloneFailureConflicts(o: Hg.Oracle, repos: seq<Catalog.Entry>, s: Hg.State, src: string, dst: string,
                              items: seq<Engine.Item>)
    ensures var r := Engine.Transplant(o, repos, s, src, dst, items, Engine.Legacy);
      Engine.Clone(o, repos, s, dst).result.Err? ==>
        var out := TransplantResponse(r.result);
        out.Respond? && out.response.status == 409
        && Engine.Added(s, r.after) == [Hg.Cmd(dst, Hg.CloneOp(Catalog.RepoBaseUrl(repos, dst)))]
  {
    Guarantees.TransplantOpening(o, repos, s, src, dst, items, Engine.Legacy);
  }

  /** The older `transplant` answers 200 only when every item succeeded and the destination was
      pushed once, and then with the tip the items left; an item with neither key escapes as a bare
      exception naming it, unless the cleanup after it failed. */
  lemma TransplantAnswers(o: Hg.Oracle, repos: seq<Catalog.Entry>, s: Hg.State, src: string, dst: string,
                          items: seq<Engine.Item>)
    ensures var r := Engine.Transplant(o, repos, s, src, dst, items, Engine.Legacy);
      var out := TransplantResponse(r.result); var c := Engine.Clone(o, repos, s, dst);
      (out.Respond? && out.response.status == 200 ==>
         c.result.Ok?
         && var a := Engine.ApplyItems(o, repos, c.after, src, dst, items, Engine.Legacy);
         a.failure.None? && Engine.Pushes(Engine.Added(s, r.after)) == 1
         && out.response.body == map["tip" := Str(Hg.Tip(a.after.copies[dst]))])
      && (c.result.Ok? ==>
            var a := Engine.ApplyItems(o, repos, c.after, src, dst, items, Engine.Legacy);
            a.failure.Some? && items[a.applied].commit.None? && items[a.applied].revset.None?
            && Engine.Cleanup(o, a.after, dst).result.Ok? ==>
              out == Escape(Engine.PlainException("unknown item: " + Engine.ItemRepr(items[a.applied]))))
  {
    Guarantees.TransplantSucceeds(o, repos, s, src, dst, items, Engine.Legacy);
    Guarantees.TransplantFailure(o, repos, s, src, dst, items, Engine.Legacy);
    var c := Engine.Clone(o, repos, s, dst);
    if c.result.Ok? {
      Guarantees.ApplyItemsStopsAtFailure(o, repos, c.after, src, dst, items, Engine.Legacy);
    }
  }

  /** The older `flask_transplant`: the validation chain, then `transplant` itself. A refused
      request touches no repository. */
  method FlaskTransplant(ws: Hg.Workspace, repos: seq<Catalog.Entry>, params: Option<Json>)
    returns (o: Outcome)
    modifies ws
    ensures var d := CheckRequest(repos, params);
      !(d.Submit? && ItemsOf(d.items).Some?) ==> ws.Now() == old(ws.Now())
    ensures CheckRequest(repos, params).Reject? ==> o == Respond(BadRequest(CheckRequest(repos, params).message))
    ensures CheckRequest(repos, params).Malformed? ==> o.Crash?
    ensures var d := CheckRequest(repos, params);
      d.Submit? && ItemsOf(d.items).Some? ==>
        var r := Engine.Transplant(ws.oracle, repos, old(ws.Now()), d.src, d.dst, ItemsOf(d.items).value, Engine.Legacy);
        o == TransplantResponse(r.result) && ws.Now() == r.after
  {
    var d := CheckRequest(repos, params);
    match d {
      case Reject(message) =>
        return Respond(BadRequest(message));
      case Malformed =>
        return Crash;
      case Submit(src, dst, items) =>
        var parsed := ItemsOf(items);
        if parsed.None? {
          return Crash;
        }
        o := Transplant(ws, repos, src, dst, parsed.value);
    }
  }

  /** The unknown-item error of this module is not a backend failure, so it escapes the 409
      answer; in the task module the same item is a TransplantError. */
  lemma UnknownItemEscapes(item: Engine.Item)
    requires item.commit.None? && item.revset.None?
    ensures TransplantResponse(Err(Engine.UnknownItemError(item, Engine.Legacy)))
            == Escape(Engine.PlainException("unknown item: " + Engine.ItemRepr(item)))
    ensures Engine.UnknownItemError(item, Engine.Current)
            == Engine.TransplantError("unknown item: " + Engine.ItemRepr(item))
  {
  }
}
