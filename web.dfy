// Request handling shared by both blueprint versions: JSON values as the handlers see them,
// Python truthiness, the validation chain that guards a transplant request, and the JSON
// shapes of the responses.
module Web {
  import opened Base
  import Catalog
  import Hg
  import Engine

  /** A decoded JSON value. */
  datatype Json =
    | Null
    | Bool(b: bool)
    | Int(i: int)
    | Str(s: string)
    | Arr(elems: seq<Json>)
    | Obj(fields: map<string, Json>)

  /** Python's truth value of a decoded JSON value: `None`, `False`, `0` and empty containers are false. */
  predicate Truthy(j: Json)
  {
    match j
    case Null => false
    case Bool(b) => b
    case Int(i) => i != 0
    case Str(s) => s != []
    case Arr(e) => e != []
    case Obj(f) => f != map[]
  }

  /** `dict.get(key)`: the value under `key`, or `None`. */
  function Get(fields: map<string, Json>, key: string): Json
  {
    if key in fields then fields[key] else Null
  }

  /** `"{}".format(j)` for the values a request can carry. */
  function Render(j: Json): string
  {
    match j
    case Null => "None"
    case Bool(b) => if b then "True" else "False"
    case Int(i) => IntToString(i)
    case Str(s) => s
    case Arr(_) => "[...]"
    case Obj(_) => "{...}"
  }

  /** A handler's answer: the HTTP status and the top-level keys of the JSON body. */
  datatype Response = Response(status: nat, body: map<string, Json>)

  function Reply(body: map<string, Json>): Response
  {
    Response(200, body)
  }

  function BadRequest(message: string): (r: Response)
    ensures r.status == 400 && r.body.Keys == {"error"} && r.body["error"] == Str(message)
  {
    Response(400, map["error" := Str(message)])
  }

  /** `has_repo` on a request value: only a string can equal a catalog entry's name. */
  predicate Known(repos: seq<Catalog.Entry>, j: Json)
  {
    j.Str? && Catalog.HasRepo(repos, j.s)
  }

  /** The checks `flask_transplant` makes on a request object, in the order it makes them,
      each with the message it answers when that check is the first to fail. */
  function Checks(repos: seq<Catalog.Entry>, fields: map<string, Json>): seq<(bool, string)>
  {
    var src, dst, items := Get(fields, "src"), Get(fields, "dst"), Get(fields, "items");
    [ (Truthy(src), "No src"),
      (Truthy(dst), "No dst"),
      (Truthy(items), "No items"),
      (Known(repos, src), "Unknown src repository: " + Render(src)),
      (Known(repos, dst), "Unknown dst repository: " + Render(dst)),
      (src.Str? && dst.Str? && Catalog.IsAllowedTransplant(src.s, dst.s),
       "Transplant from " + Render(src) + " to " + Render(dst) + " is not allowed") ]
  }

  /** The message of the first check that fails, if any. */
  function FirstFailure(checks: seq<(bool, string)>): (m: Option<string>)
    ensures m.None? <==> forall i :: 0 <= i < |checks| ==> checks[i].0
    ensures m.Some? ==> exists i :: 0 <= i < |checks| && !checks[i].0 && checks[i].1 == m.value
                                   && forall j :: 0 <= j < i ==> checks[j].0
  {
    if checks == [] then None
    else if !checks[0].0 then Some(checks[0].1)
    else
      var m := FirstFailure(checks[1..]);
      assert forall i :: 1 <= i < |checks| ==> checks[i] == checks[1..][i - 1];
      m
  }

  /** The first failure of a six-step chain, step by step. */
  lemma {:induction false} FirstFailureOfSix(c: seq<(bool, string)>)
    requires |c| == 6
    ensures FirstFailure(c) ==
      if !c[0].0 then Some(c[0].1) else if !c[1].0 then Some(c[1].1) else if !c[2].0 then Some(c[2].1)
      else if !c[3].0 then Some(c[3].1) else if !c[4].0 then Some(c[4].1) else if !c[5].0 then Some(c[5].1)
      else None
  {
    var t := c[1..];
    assert t[1..][1..][1..][1..][1..] == [];
  }

  /** Every check passes: the request names two different known repositories and some items. */
  predicate Admissible(repos: seq<Catalog.Entry>, params: Option<Json>)
  {
    params.Some? && params.value.Obj? &&
    var src, dst := Get(params.value.fields, "src"), Get(params.value.fields, "dst");
    Truthy(src) && Truthy(dst) && Truthy(Get(params.value.fields, "items")) &&
    Known(repos, src) && Known(repos, dst) && src.s != dst.s
  }

  datatype Decision =
    | Reject(message: string)                        // answered with 400 and this message
    | Malformed                                      // `params.get` raises: the body is not an object
    | Submit(src: string, dst: string, items: Json)  // handed on to the transplant

  /** The validation chain of `flask_transplant`, up to the call it guards. */
  function CheckRequest(repos: seq<Catalog.Entry>, params: Option<Json>): (d: Decision)
    ensures d.Submit? <==> Admissible(repos, params)
    ensures d.Submit? ==> (Get(params.value.fields, "src") == Str(d.src)
                           && Get(params.value.fields, "dst") == Str(d.dst)
                           && Get(params.value.fields, "items") == d.items)
    ensures d.Malformed? <==> params.Some? && Truthy(params.value) && !params.value.Obj?
    ensures params.None? || !Truthy(params.value) ==> d == Reject("No params")
    // past the first check, the answer is the first failing check of the chain
    ensures params.Some? && params.value.Obj? && Truthy(params.value) ==>
      (d.Reject? <==> FirstFailure(Checks(repos, params.value.fields)).Some?) &&
      (d.Reject? ==> d.message == FirstFailure(Checks(repos, params.value.fields)).value)
  {
    if params.None? || !Truthy(params.value) then Reject("No params")
    else if !params.value.Obj? then Malformed
    else
      var f := params.value.fields;
      var src, dst, items := Get(f, "src"), Get(f, "dst"), Get(f, "items");
      FirstFailureOfSix(Checks(repos, f));
      if !Truthy(src) then Reject("No src")
      else if !Truthy(dst) then Reject("No dst")
      else if !Truthy(items) then Reject("No items")
      else if !Known(repos, src) then Reject("Unknown src repository: " + Render(src))
      else if !Known(repos, dst) then Reject("Unknown dst repository: " + Render(dst))
      else if !Catalog.IsAllowedTransplant(src.s, dst.s) then
        Reject("Transplant from " + Render(src) + " to " + Render(dst) + " is not allowed")
      else Submit(src.s, dst.s, items)
  }

  /** A string-valued optional key of an item: absent or `null` reads as None. */
  function OptionalText(fields: map<string, Json>, key: string): Option<Option<string>>
  {
    match Get(fields, key)
    case Null => Some(None)
    case Str(s) => Some(Some(s))
    case _ => None
  }

  /** An item the engine can act on: an object whose `commit`, `revset` and `message` keys,
      where present, hold strings (only `message` may be `null`). */
  function ItemOf(j: Json): (r: Option<Engine.Item>)
    ensures r.Some? ==> j.Obj?
    ensures r.Some? ==> (r.value.commit.Some? <==> "commit" in j.fields)
    ensures r.Some? ==> (r.value.revset.Some? <==> "revset" in j.fields)
    ensures r.Some? && r.value.commit.Some? ==> j.fields["commit"] == Str(r.value.commit.value)
    ensures r.Some? && r.value.revset.Some? ==> j.fields["revset"] == Str(r.value.revset.value)
    ensures r.Some? ==> (r.value.message.Some? <==> Get(j.fields, "message").Str?)
  {
    if !j.Obj? then None
    else
      var f := j.fields;
      var commit := if "commit" in f then (if f["commit"].Str? then Some(Some(f["commit"].s)) else None)
                    else Some(None);
      var revset := if "revset" in f then (if f["revset"].Str? then Some(Some(f["revset"].s)) else None)
                    else Some(None);
      var message := OptionalText(f, "message");
      if commit.None? || revset.None? || message.None? then None
      else Some(Engine.Item(commit.value, revset.value, message.value))
  }

  /** The request's `items` as the engine's work list, when it is a list of such items. */
  function ItemsOf(j: Json): (r: Option<seq<Engine.Item>>)
    ensures r.Some? ==> j.Arr? && |r.value| == |j.elems|
    ensures r.Some? ==> forall i :: 0 <= i < |j.elems| ==> ItemOf(j.elems[i]) == Some(r.value[i])
    ensures j.Arr? && (forall i :: 0 <= i < |j.elems| ==> ItemOf(j.elems[i]).Some?) ==> r.Some?
  {
    if !j.Arr? then None
    else if forall i :: 0 <= i < |j.elems| ==> ItemOf(j.elems[i]).Some? then
      Some(seq(|j.elems|, i requires 0 <= i < |j.elems| => ItemOf(j.elems[i]).value))
    else None
  }

  /** A changeset as the lookup reports it. */
  function CommitJson(c: Hg.Commit): (j: Json)
    ensures j.Obj? && j.fields.Keys == {"node", "author", "author_email", "date", "message"}
    ensures j.fields["node"] == Str(c.node) && j.fields["message"] == Str(c.message)
  {
    Obj(map["node" := Str(c.node), "author" := Str(c.author), "author_email" := Str(c.authorEmail),
            "date" := Str(c.date), "message" := Str(c.message)])
  }

  /** `{'commits': commits}`, the revset information `get_revset_info` returns. */
  function RevsetJson(cs: seq<Hg.Commit>): (j: Json)
    ensures j.Obj? && j.fields.Keys == {"commits"} && j.fields["commits"].Arr?
    ensures |j.fields["commits"].elems| == |cs|
    ensures forall i :: 0 <= i < |cs| ==> j.fields["commits"].elems[i] == CommitJson(cs[i])
  {
    Obj(map["commits" := Arr(seq(|cs|, i requires 0 <= i < |cs| => CommitJson(cs[i])))])
  }

  /** What a handler does: answer, or let an exception escape to the framework. */
  datatype Outcome =
    | Respond(response: Response)
    | Escape(error: Engine.Error)   // an engine error no handler catches
    | Crash                          // the handler itself raises: the request body is not an object
}
