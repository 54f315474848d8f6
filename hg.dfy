/**
 * The repository handle: the Mercurial operations the transplant engine calls
 * (clone, log, pull, update, purge, strip, push, id, transplant, collapse),
 * over the local working copies that the engine keeps on disk.
 *
 * Every handle that `clone(name)` returns for one name works on the same
 * directory, so the state is kept per repository name. Each command is
 * appended to `trace`; whether it fails is decided by the `fault` oracle,
 * indexed by the command's position in `trace`, so that every failure the
 * backend may raise is an explicit outcome.
 */
module Hg {
  import opened Base

  type Node = string

  /** The id `hg id` reports for a repository without changesets. */
  const NullNode: Node := "000000000000"
  /** What Mercurial prints when a command's revision set selects nothing. */
  const EmptyRevisionSet: string := "abort: empty revision set\n"
  /** The environment variable through which the message filter receives the new message. */
  const TransplantMessageVar: string := "TRANSPLANT_MESSAGE"

  /** A changeset as `log` reports it. */
  datatype Commit = Commit(node: Node, author: string, authorEmail: string, date: string, message: string)

  datatype Revset =
    | Expr(text: string)                  // a revision or revset expression given by a caller
    | Nodes(nodes: seq<Node>)             // an explicit list of changeset ids
    | DescendantsOfChildren(root: Node)   // descendants(children(root))
    | OutgoingBase                        // outgoing(base)

  /** The fields of the backend's MercurialException. */
  datatype HgError = HgError(cmd: string, returncode: int, stdout: string, stderr: string)

  datatype Failure =
    | UnknownRevision(revset: Revset)     // UnknownRevisionException
    | Mercurial(error: HgError)           // MercurialException

  /** One local clone: its history (oldest first, the tip last), its working
      directory state and the `paths.default` / `paths.base` configuration. */
  datatype WorkingCopy = WorkingCopy(
    history: seq<Commit>,
    dirty: bool,
    untracked: set<string>,
    defaultPath: Option<string>,
    basePath: Option<string>)

  datatype Op =
    | CloneOp(url: Option<string>)
    | LogOp(rev: Revset)
    | PullOp(rev: Revset, update: bool)
    | UpdateOp(clean: bool)
    | PurgeOp(all: bool)
    | StripOp(rev: Revset, noBackup: bool)
    | PushOp
    | IdOp
    | TransplantOp(rev: Revset, source: string, filter: Option<string>, env: map<string, string>)
    | CollapseOp(rev: Revset, message: Option<string>)

  /** One backend command, issued on the working copy of `repo`. */
  datatype Cmd = Cmd(repo: string, op: Op)

  function NodeSet(cs: seq<Commit>): set<Node>
  {
    set c | c in cs :: c.node
  }

  /** The ids of `cs`, in order. */
  function NodesOf(cs: seq<Commit>): seq<Node>
  {
    seq(|cs|, i requires 0 <= i < |cs| => cs[i].node)
  }

  /** The commits of `h`, in order, whose ids are not in `ns`. */
  function Absent(h: seq<Commit>, ns: set<Node>): (r: seq<Commit>)
    ensures forall c :: c in r <==> c in h && c.node !in ns
    ensures |r| <= |h|
  {
    if h == [] then []
    else if h[0].node in ns then Absent(h[1..], ns)
    else [h[0]] + Absent(h[1..], ns)
  }

  /** Position of the first commit of `h` with id `n`. */
  function IndexOf(h: seq<Commit>, n: Node): (r: Option<nat>)
    ensures r.Some? ==> r.value < |h| && h[r.value].node == n
    ensures r.Some? ==> forall j :: 0 <= j < r.value ==> h[j].node != n
    ensures r.None? <==> n !in NodeSet(h)
  {
    if h == [] then None
    else if h[0].node == n then Some(0)
    else match IndexOf(h[1..], n)
      case None => None
      case Some(i) => Some(i + 1)
  }

  /** The commits named by a list of ids, in the list's order; None when one is unknown. */
  function Select(h: seq<Commit>, ns: seq<Node>): (r: Option<seq<Commit>>)
    ensures r.Some? <==> forall j :: 0 <= j < |ns| ==> ns[j] in NodeSet(h)
    ensures r.Some? ==> |r.value| == |ns|
    ensures r.Some? ==> forall j :: 0 <= j < |ns| ==> r.value[j] in h && r.value[j].node == ns[j]
  {
    if ns == [] then Some([])
    else match IndexOf(h, ns[0])
      case None => None
      case Some(i) =>
        match Select(h, ns[1..])
        case None => None
        case Some(rest) => Some([h[i]] + rest)
  }

  /** `outgoing(base)`: the local commits the base remote does not have. */
  function OutgoingOf(wc: WorkingCopy, remotes: map<string, seq<Commit>>): Option<seq<Commit>>
  {
    if wc.basePath.Some? && wc.basePath.value in remotes
    then Some(Absent(wc.history, NodeSet(remotes[wc.basePath.value])))
    else None
  }

  /** What a revision set selects in a working copy; None when it names something unknown. */
  function Resolve(wc: WorkingCopy, remotes: map<string, seq<Commit>>,
                   interpret: (seq<Commit>, string) -> Option<seq<Commit>>, rev: Revset): Option<seq<Commit>>
  {
    match rev
    case Expr(t) => interpret(wc.history, t)
    case Nodes(ns) => Select(wc.history, ns)
    case DescendantsOfChildren(root) =>
      if root == NullNode then Some(wc.history)   // every changeset descends from the null revision
      else (match IndexOf(wc.history, root)
       case None => None
       case Some(i) => Some(wc.history[i + 1..]))
    case OutgoingBase => OutgoingOf(wc, remotes)
  }

  /** A revision set that resolves to nothing known: an unknown revision, or an unreachable base. */
  function Unresolved(rev: Revset, unreachable: HgError): Failure
  {
    if rev.OutgoingBase? then Mercurial(unreachable) else UnknownRevision(rev)
  }

  /** The message of a transplanted changeset: the filter replaces it with `TRANSPLANT_MESSAGE`. */
  function NewMessage(c: Commit, filter: Option<string>, env: map<string, string>): string
  {
    if filter.Some? && TransplantMessageVar in env then env[TransplantMessageVar] else c.message
  }

  /** The changesets `hg transplant` creates for `cs`; command `k` mints their ids. */
  function Transplanted(cs: seq<Commit>, k: nat, filter: Option<string>, env: map<string, string>,
                        mint: (nat, nat) -> Node): (r: seq<Commit>)
    ensures |r| == |cs|
  {
    seq(|cs|, i requires 0 <= i < |cs| =>
      Commit(mint(k, i), cs[i].author, cs[i].authorEmail, cs[i].date, NewMessage(cs[i], filter, env)))
  }

  /** The messages of `cs`, one per line: the message `collapse` uses when it is given none. */
  function Joined(cs: seq<Commit>): string
  {
    if cs == [] then "" else if |cs| == 1 then cs[0].message else cs[0].message + "\n" + Joined(cs[1..])
  }

  /** Every collapsed message survives in the default collapse message. */
  lemma {:induction false} JoinedKeepsMessages(cs: seq<Commit>, i: nat)
    requires i < |cs|
    ensures Contains(Joined(cs), cs[i].message)
  {
    if |cs| == 1 {
      ContainsAt(Joined(cs), cs[0].message, 0);
    } else if i == 0 {
      ContainsAt(Joined(cs), cs[0].message, 0);
    } else {
      JoinedKeepsMessages(cs[1..], i - 1);
      var head := cs[0].message + "\n";
      ContainsShift(head, Joined(cs[1..]), cs[i].message);
      assert Joined(cs) == head + Joined(cs[1..]);
    }
  }

  lemma {:induction false} ContainsShift(a: string, b: string, sub: string)
    requires Contains(b, sub)
    ensures Contains(a + b, sub)
    decreases |a| + |b|
  {
    if a == [] {
      assert a + b == b;
    } else {
      assert (a + b)[1..] == a[1..] + b;
      ContainsShift(a[1..], b, sub);
    }
  }

  /** The single changeset `collapse` makes of `cs`. */
  function Squash(cs: seq<Commit>, k: nat, message: Option<string>, mint: (nat, nat) -> Node): Commit
    requires cs != []
  {
    Commit(mint(k, 0), cs[0].author, cs[0].authorEmail, cs[|cs| - 1].date,
           if message.Some? then message.value else Joined(cs))
  }

  /** No local commit is missing from the base remote, nothing is modified, nothing untracked. */
  predicate Clean(wc: WorkingCopy, remotes: map<string, seq<Commit>>)
  {
    !wc.dirty && wc.untracked == {} && OutgoingOf(wc, remotes) == Some([])
  }

  /** The id of the tip. */
  function Tip(wc: WorkingCopy): Node
  {
    if wc.history == [] then NullNode else wc.history[|wc.history| - 1].node
  }

  /** How the backend behaves beyond what the state shows: whether the k-th command fails,
      what a textual revision set selects, the ids of new changesets, the reject files a failing
      transplant leaves, and what is raised for a path that cannot be reached. */
  datatype Oracle = Oracle(
    fault: nat -> Option<HgError>,
    interpret: (seq<Commit>, string) -> Option<seq<Commit>>,
    mint: (nat, nat) -> Node,
    rejects: nat -> set<string>,
    unreachable: HgError)

  /** What the commands change: the clones by repository name, the upstream repositories by
      URL, and every command issued so far. */
  datatype State = State(copies: map<string, WorkingCopy>, remotes: map<string, seq<Commit>>, trace: seq<Cmd>)

  /** A command's answer and the state it leaves behind. */
  datatype Step<+T> = Step(result: Result<T, Failure>, after: State)

  /** `s` with one more command issued. */
  function Issue(s: State, c: Cmd): State
  {
    s.(trace := s.trace + [c])
  }

  /** The failure the backend injects into the next command, if any. */
  function NextFault(o: Oracle, s: State): Option<HgError>
  {
    o.fault(|s.trace|)
  }

  /** `Repository.clone(source, dir)`: a fresh clone of the remote at `source`, without paths. */
  function CloneStep(o: Oracle, s: State, name: string, source: Option<string>): (r: Step<()>)
    requires name !in s.copies
    ensures r.after.remotes == s.remotes && r.after.trace == s.trace + [Cmd(name, CloneOp(source))]
    ensures r.result.Ok? <==> NextFault(o, s).None? && source.Some? && source.value in s.remotes
    ensures r.result.Err? ==> r.after.copies == s.copies && r.result.error.Mercurial?
    ensures r.result.Ok? ==>
      r.after.copies == s.copies[name := WorkingCopy(s.remotes[source.value], false, {}, None, None)]
  {
    var t := Issue(s, Cmd(name, CloneOp(source)));
    if NextFault(o, s).Some? then Step(Err(Mercurial(NextFault(o, s).value)), t)
    else if source.None? || source.value !in s.remotes then Step(Err(Mercurial(o.unreachable)), t)
    else Step(Ok(()), t.(copies := s.copies[name := WorkingCopy(s.remotes[source.value], false, {}, None, None)]))
  }

  /** `set_config({"paths": {"default": ..., "base": ...}})`: rewrites the clone's hgrc; not a command. */
  function WithPaths(s: State, name: string, defaultPath: Option<string>, basePath: Option<string>): State
    requires name in s.copies
  {
    s.(copies := s.copies[name := s.copies[name].(defaultPath := defaultPath, basePath := basePath)])
  }

  /** What `log(rev)` on `name` answers in `s`: the selected changesets, an unknown revision, or the injected failure. */
  function LogAnswer(o: Oracle, s: State, name: string, rev: Revset): Result<seq<Commit>, Failure>
    requires name in s.copies
  {
    if NextFault(o, s).Some? then Err(Mercurial(NextFault(o, s).value))
    else match Resolve(s.copies[name], s.remotes, o.interpret, rev)
      case None => Err(Unresolved(rev, o.unreachable))
      case Some(cs) => Ok(cs)
  }

  /** `log(rev)`: answers and changes nothing. */
  function LogStep(o: Oracle, s: State, name: string, rev: Revset): (r: Step<seq<Commit>>)
    requires name in s.copies
    ensures r.after == Issue(s, Cmd(name, LogOp(rev)))
    ensures r.result.Ok? ==> Resolve(s.copies[name], s.remotes, o.interpret, rev) == Some(r.result.value)
  {
    Step(LogAnswer(o, s, name, rev), Issue(s, Cmd(name, LogOp(rev))))
  }

  /** `pull(rev, update)`: brings in the commits of `paths.default` that the clone lacks. */
  function PullStep(o: Oracle, s: State, name: string, rev: Revset, update: bool): (r: Step<()>)
    requires name in s.copies
    ensures r.after.remotes == s.remotes && r.after.trace == s.trace + [Cmd(name, PullOp(rev, update))]
    ensures r.after.copies.Keys == s.copies.Keys
    ensures r.result.Err? ==> r.after.copies == s.copies && r.result.error.Mercurial?
    ensures r.after.copies == s.copies[name := r.after.copies[name]]
    ensures var wc := s.copies[name];
      r.after.copies[name] == wc.(history := r.after.copies[name].history)
      && wc.history <= r.after.copies[name].history
    ensures var wc := s.copies[name];
      r.result.Ok? <==> NextFault(o, s).None? && wc.defaultPath.Some? && wc.defaultPath.value in s.remotes
    ensures var wc := s.copies[name];
      r.result.Ok? ==>
        r.after.copies[name].history == wc.history + Absent(s.remotes[wc.defaultPath.value], NodeSet(wc.history))
        && NodeSet(s.remotes[wc.defaultPath.value]) <= NodeSet(r.after.copies[name].history)
  {
    var t := Issue(s, Cmd(name, PullOp(rev, update)));
    var wc := s.copies[name];
    if NextFault(o, s).Some? then Step(Err(Mercurial(NextFault(o, s).value)), t)
    else if wc.defaultPath.None? || wc.defaultPath.value !in s.remotes then Step(Err(Mercurial(o.unreachable)), t)
    else Step(Ok(()), t.(copies := s.copies[name := wc.(history := wc.history
                                       + Absent(s.remotes[wc.defaultPath.value], NodeSet(wc.history)))]))
  }

  /** `update(clean)`: with `clean`, local modifications are discarded. */
  function UpdateStep(o: Oracle, s: State, name: string, clean: bool): (r: Step<()>)
    requires name in s.copies
    ensures r.after.remotes == s.remotes && r.after.trace == s.trace + [Cmd(name, UpdateOp(clean))]
    ensures r.after.copies.Keys == s.copies.Keys
    ensures r.result.Ok? <==> NextFault(o, s).None?
    ensures r.result.Err? ==> r.result.error.Mercurial?
    ensures r.after.copies == if r.result.Ok? && clean then s.copies[name := s.copies[name].(dirty := false)]
                              else s.copies
  {
    var t := Issue(s, Cmd(name, UpdateOp(clean)));
    if NextFault(o, s).Some? then Step(Err(Mercurial(NextFault(o, s).value)), t)
    else if clean then Step(Ok(()), t.(copies := s.copies[name := s.copies[name].(dirty := false)]))
    else Step(Ok(()), t)
  }

  /** `purge(abort_on_err=True, all=True)`: deletes every untracked file. */
  function PurgeStep(o: Oracle, s: State, name: string, all: bool): (r: Step<()>)
    requires name in s.copies
    ensures r.after.remotes == s.remotes && r.after.trace == s.trace + [Cmd(name, PurgeOp(all))]
    ensures r.after.copies.Keys == s.copies.Keys
    ensures r.result.Ok? <==> NextFault(o, s).None?
    ensures r.result.Err? ==> r.result.error.Mercurial?
    ensures r.after.copies == if r.result.Ok? then s.copies[name := s.copies[name].(untracked := {})] else s.copies
  {
    var t := Issue(s, Cmd(name, PurgeOp(all)));
    if NextFault(o, s).Some? then Step(Err(Mercurial(NextFault(o, s).value)), t)
    else Step(Ok(()), t.(copies := s.copies[name := s.copies[name].(untracked := {})]))
  }

  /** What `hg strip` raises when its revision set selects nothing. */
  const EmptyStrip: HgError := HgError("strip", 255, "", EmptyRevisionSet)

  /** `strip(rev, no_backup)`: removes the selected changesets; an empty selection is an error. */
  function StripStep(o: Oracle, s: State, name: string, rev: Revset, noBackup: bool): (r: Step<()>)
    requires name in s.copies
    ensures r.after.remotes == s.remotes && r.after.trace == s.trace + [Cmd(name, StripOp(rev, noBackup))]
    ensures r.after.copies.Keys == s.copies.Keys
    ensures var sel := Resolve(s.copies[name], s.remotes, o.interpret, rev);
      r.result == (if NextFault(o, s).Some? then Err(Mercurial(NextFault(o, s).value))
                   else if sel.None? then Err(Unresolved(rev, o.unreachable))
                   else if sel.value == [] then Err(Mercurial(EmptyStrip))
                   else Ok(()))
    ensures r.after.copies == if r.result.Err? then s.copies
      else s.copies[name := s.copies[name].(history := Absent(s.copies[name].history,
             NodeSet(Resolve(s.copies[name], s.remotes, o.interpret, rev).value)))]
  {
    var t := Issue(s, Cmd(name, StripOp(rev, noBackup)));
    var wc := s.copies[name];
    var sel := Resolve(wc, s.remotes, o.interpret, rev);
    if NextFault(o, s).Some? then Step(Err(Mercurial(NextFault(o, s).value)), t)
    else if sel.None? then Step(Err(Unresolved(rev, o.unreachable)), t)
    else if sel.value == [] then Step(Err(Mercurial(EmptyStrip)), t)
    else Step(Ok(()), t.(copies := s.copies[name := wc.(history := Absent(wc.history, NodeSet(sel.value)))]))
  }

  /** `push()`: `paths.default` receives the commits it lacks; the clones do not change. */
  function PushStep(o: Oracle, s: State, name: string): (r: Step<()>)
    requires name in s.copies
    ensures r.after.copies == s.copies && r.after.trace == s.trace + [Cmd(name, PushOp)]
    ensures r.result.Err? ==> r.after.remotes == s.remotes && r.result.error.Mercurial?
    ensures var wc := s.copies[name];
      r.result.Ok? <==> NextFault(o, s).None? && wc.defaultPath.Some? && wc.defaultPath.value in s.remotes
    ensures var wc := s.copies[name];
      r.result.Ok? ==>
        var theirs := s.remotes[wc.defaultPath.value];
        r.after.remotes == s.remotes[wc.defaultPath.value := theirs + Absent(wc.history, NodeSet(theirs))]
        && NodeSet(wc.history) <= NodeSet(r.after.remotes[wc.defaultPath.value])
  {
    var t := Issue(s, Cmd(name, PushOp));
    var wc := s.copies[name];
    if NextFault(o, s).Some? then Step(Err(Mercurial(NextFault(o, s).value)), t)
    else if wc.defaultPath.None? || wc.defaultPath.value !in s.remotes then Step(Err(Mercurial(o.unreachable)), t)
    else
      var theirs := s.remotes[wc.defaultPath.value];
      Step(Ok(()), t.(remotes := s.remotes[wc.defaultPath.value := theirs + Absent(wc.history, NodeSet(theirs))]))
  }

  /** `id(id=True)`: the id of the tip. */
  function IdStep(o: Oracle, s: State, name: string): (r: Step<Node>)
    requires name in s.copies
    ensures r.after == Issue(s, Cmd(name, IdOp))
    ensures r.after.copies == s.copies && r.after.remotes == s.remotes && r.after.trace == s.trace + [Cmd(name, IdOp)]
    ensures r.result.Ok? <==> NextFault(o, s).None?
    ensures r.result.Ok? ==> r.result.value == Tip(s.copies[name])
    ensures r.result.Err? ==> r.result.error.Mercurial?
  {
    var t := Issue(s, Cmd(name, IdOp));
    if NextFault(o, s).Some? then Step(Err(Mercurial(NextFault(o, s).value)), t)
    else Step(Ok(Tip(s.copies[name])), t)
  }

  /** `transplant(rev, source, filter, env)`: copies the changesets `rev` selects in the clone
      `source` on top of `name`, skipping those `name` already holds (`hg transplant` reports
      them as already applied). A failure (a conflict) leaves the working copy modified and
      reject files behind, and adds no changeset. */
  function TransplantStep(o: Oracle, s: State, name: string, rev: Revset, source: string,
                          filter: Option<string>, env: map<string, string>): (r: Step<()>)
    requires name in s.copies
    ensures r.after.remotes == s.remotes && r.after.trace == s.trace + [Cmd(name, TransplantOp(rev, source, filter, env))]
    ensures r.after.copies.Keys == s.copies.Keys
    ensures r.after.copies == s.copies[name := r.after.copies[name]]
    ensures var sel := if source in s.copies then Resolve(s.copies[source], s.remotes, o.interpret, rev) else None;
      r.result == (if NextFault(o, s).Some? then Err(Mercurial(NextFault(o, s).value))
                   else if source !in s.copies then Err(Mercurial(o.unreachable))
                   else if sel.None? then Err(Unresolved(rev, o.unreachable))
                   else Ok(()))
    ensures var wc := s.copies[name];
      r.after.copies[name] ==
        if NextFault(o, s).Some? then wc.(dirty := true, untracked := wc.untracked + o.rejects(|s.trace|))
        else if r.result.Err? then wc
        else wc.(history := wc.history + Transplanted(Absent(Resolve(s.copies[source], s.remotes, o.interpret, rev).value,
                                                             NodeSet(wc.history)),
                                                      |s.trace|, filter, env, o.mint))
  {
    var k := |s.trace|;
    var t := Issue(s, Cmd(name, TransplantOp(rev, source, filter, env)));
    var wc := s.copies[name];
    if NextFault(o, s).Some? then
      Step(Err(Mercurial(NextFault(o, s).value)),
           t.(copies := s.copies[name := wc.(dirty := true, untracked := wc.untracked + o.rejects(k))]))
    else if source !in s.copies then Step(Err(Mercurial(o.unreachable)), t)
    else match Resolve(s.copies[source], s.remotes, o.interpret, rev)
      case None => Step(Err(Unresolved(rev, o.unreachable)), t)
      case Some(cs) =>
        var h := wc.history + Transplanted(Absent(cs, NodeSet(wc.history)), k, filter, env, o.mint);
        Step(Ok(()), t.(copies := s.copies[name := wc.(history := h)]))
  }

  /** What `hg collapse` raises when its revision set selects nothing. */
  const EmptyCollapse: HgError := HgError("collapse", 255, "", EmptyRevisionSet)

  /** `collapse(rev, message)`: replaces the selected changesets by one at the tip. */
  function CollapseStep(o: Oracle, s: State, name: string, rev: Revset, message: Option<string>): (r: Step<()>)
    requires name in s.copies
    ensures r.after.remotes == s.remotes && r.after.trace == s.trace + [Cmd(name, CollapseOp(rev, message))]
    ensures r.after.copies.Keys == s.copies.Keys
    ensures r.after.copies == s.copies[name := r.after.copies[name]]
    ensures var sel := Resolve(s.copies[name], s.remotes, o.interpret, rev);
      r.result == (if NextFault(o, s).Some? then Err(Mercurial(NextFault(o, s).value))
                   else if sel.None? then Err(Unresolved(rev, o.unreachable))
                   else if sel.value == [] then Err(Mercurial(EmptyCollapse))
                   else Ok(()))
    ensures var wc := s.copies[name]; var sel := Resolve(wc, s.remotes, o.interpret, rev);
      r.after.copies[name] == if r.result.Err? then wc
        else wc.(history := Absent(wc.history, NodeSet(sel.value)) + [Squash(sel.value, |s.trace|, message, o.mint)])
  {
    var t := Issue(s, Cmd(name, CollapseOp(rev, message)));
    var wc := s.copies[name];
    var sel := Resolve(wc, s.remotes, o.interpret, rev);
    if NextFault(o, s).Some? then Step(Err(Mercurial(NextFault(o, s).value)), t)
    else if sel.None? then Step(Err(Unresolved(rev, o.unreachable)), t)
    else if sel.value == [] then Step(Err(Mercurial(EmptyCollapse)), t)
    else Step(Ok(()), t.(copies := s.copies[name := wc.(history := Absent(wc.history, NodeSet(sel.value))
                                                               + [Squash(sel.value, |s.trace|, message, o.mint)])]))
  }

  /**
   * The repository handles of one process: every clone under the work directory, the upstream
   * repositories, and the log of the commands issued. Each method is one backend command and
   * does exactly what the step function of the same name says.
   */
  class Workspace {
    var copies: map<string, WorkingCopy>     // the clones under the work directory, by name
    var remotes: map<string, seq<Commit>>    // the upstream repositories, by URL
    var trace: seq<Cmd>                      // every command issued so far
    const oracle: Oracle                     // how the backend behaves

    constructor (copies: map<string, WorkingCopy>, remotes: map<string, seq<Commit>>, oracle: Oracle)
      ensures Now() == State(copies, remotes, []) && this.oracle == oracle
    {
      this.copies := copies;
      this.remotes := remotes;
      this.trace := [];
      this.oracle := oracle;
    }

    /** The current state of every clone, every upstream repository and the trace. */
    function Now(): State
      reads this
    {
      State(copies, remotes, trace)
    }

    method CloneRepo(name: string, source: Option<string>) returns (r: Result<(), Failure>)
      requires name !in copies
      modifies this
      ensures Step(r, Now()) == CloneStep(oracle, old(Now()), name, source)
    {
      var f := oracle.fault(|trace|);
      trace := trace + [Cmd(name, CloneOp(source))];
      if f.Some? {
        r := Err(Mercurial(f.value));
      } else if source.None? || source.value !in remotes {
        r := Err(Mercurial(oracle.unreachable));
      } else {
        copies := copies[name := WorkingCopy(remotes[source.value], false, {}, None, None)];
        r := Ok(());
      }
    }

    method SetPaths(name: string, defaultPath: Option<string>, basePath: Option<string>)
      requires name in copies
      modifies this
      ensures Now() == WithPaths(old(Now()), name, defaultPath, basePath)
    {
      copies := copies[name := copies[name].(defaultPath := defaultPath, basePath := basePath)];
    }

    method Log(name: string, rev: Revset) returns (r: Result<seq<Commit>, Failure>)
      requires name in copies
      modifies this
      ensures Step(r, Now()) == LogStep(oracle, old(Now()), name, rev)
    {
      r := LogAnswer(oracle, Now(), name, rev);
      trace := trace + [Cmd(name, LogOp(rev))];
    }

    method Pull(name: string, rev: Revset, update: bool) returns (r: Result<(), Failure>)
      requires name in copies
      modifies this
      ensures Step(r, Now()) == PullStep(oracle, old(Now()), name, rev, update)
    {
      var f := oracle.fault(|trace|);
      trace := trace + [Cmd(name, PullOp(rev, update))];
      var wc := copies[name];
      if f.Some? {
        r := Err(Mercurial(f.value));
      } else if wc.defaultPath.None? || wc.defaultPath.value !in remotes {
        r := Err(Mercurial(oracle.unreachable));
      } else {
        copies := copies[name := wc.(history := wc.history + Absent(remotes[wc.defaultPath.value], NodeSet(wc.history)))];
        r := Ok(());
      }
    }

    method Update(name: string, clean: bool) returns (r: Result<(), Failure>)
      requires name in copies
      modifies this
      ensures Step(r, Now()) == UpdateStep(oracle, old(Now()), name, clean)
    {
      var f := oracle.fault(|trace|);
      trace := trace + [Cmd(name, UpdateOp(clean))];
      if f.Some? {
        r := Err(Mercurial(f.value));
      } else {
        if clean {
          copies := copies[name := copies[name].(dirty := false)];
        }
        r := Ok(());
      }
    }

    method Purge(name: string, all: bool) returns (r: Result<(), Failure>)
      requires name in copies
      modifies this
      ensures Step(r, Now()) == PurgeStep(oracle, old(Now()), name, all)
    {
      var f := oracle.fault(|trace|);
      trace := trace + [Cmd(name, PurgeOp(all))];
      if f.Some? {
        r := Err(Mercurial(f.value));
      } else {
        copies := copies[name := copies[name].(untracked := {})];
        r := Ok(());
      }
    }

    method Strip(name: string, rev: Revset, noBackup: bool) returns (r: Result<(), Failure>)
      requires name in copies
      modifies this
      ensures Step(r, Now()) == StripStep(oracle, old(Now()), name, rev, noBackup)
    {
      var f := oracle.fault(|trace|);
      var wc := copies[name];
      var sel := Resolve(wc, remotes, oracle.interpret, rev);
      trace := trace + [Cmd(name, StripOp(rev, noBackup))];
      if f.Some? {
        r := Err(Mercurial(f.value));
      } else if sel.None? {
        r := Err(Unresolved(rev, oracle.unreachable));
      } else if sel.value == [] {
        r := Err(Mercurial(EmptyStrip));
      } else {
        copies := copies[name := wc.(history := Absent(wc.history, NodeSet(sel.value)))];
        r := Ok(());
      }
    }

    method Push(name: string) returns (r: Result<(), Failure>)
      requires name in copies
      modifies this
      ensures Step(r, Now()) == PushStep(oracle, old(Now()), name)
    {
      var f := oracle.fault(|trace|);
      trace := trace + [Cmd(name, PushOp)];
      var wc := copies[name];
      if f.Some? {
        r := Err(Mercurial(f.value));
      } else if wc.defaultPath.None? || wc.defaultPath.value !in remotes {
        r := Err(Mercurial(oracle.unreachable));
      } else {
        var theirs := remotes[wc.defaultPath.value];
        remotes := remotes[wc.defaultPath.value := theirs + Absent(wc.history, NodeSet(theirs))];
        r := Ok(());
      }
    }

    method Id(name: string) returns (r: Result<Node, Failure>)
      requires name in copies
      modifies this
      ensures Step(r, Now()) == IdStep(oracle, old(Now()), name)
    {
      var f := oracle.fault(|trace|);
      trace := trace + [Cmd(name, IdOp)];
      if f.Some? {
        r := Err(Mercurial(f.value));
      } else {
        r := Ok(Tip(copies[name]));
      }
    }

    method Transplant(name: string, rev: Revset, source: string, filter: Option<string>,
                      env: map<string, string>) returns (r: Result<(), Failure>)
      requires name in copies
      modifies this
      ensures Step(r, Now()) == TransplantStep(oracle, old(Now()), name, rev, source, filter, env)
    {
      var k := |trace|;
      var f := oracle.fault(k);
      trace := trace + [Cmd(name, TransplantOp(rev, source, filter, env))];
      var wc := copies[name];
      if f.Some? {
        copies := copies[name := wc.(dirty := true, untracked := wc.untracked + oracle.rejects(k))];
        r := Err(Mercurial(f.value));
      } else if source !in copies {
        r := Err(Mercurial(oracle.unreachable));
      } else {
        var sel := Resolve(copies[source], remotes, oracle.interpret, rev);
        if sel.None? {
          r := Err(Unresolved(rev, oracle.unreachable));
        } else {
          var arriving := Absent(sel.value, NodeSet(wc.history));
          copies := copies[name := wc.(history := wc.history + Transplanted(arriving, k, filter, env, oracle.mint))];
          r := Ok(());
        }
      }
    }

    method Collapse(name: string, rev: Revset, message: Option<string>) returns (r: Result<(), Failure>)
      requires name in copies
      modifies this
      ensures Step(r, Now()) == CollapseStep(oracle, old(Now()), name, rev, message)
    {
      var k := |trace|;
      var f := oracle.fault(k);
      var wc := copies[name];
      var sel := Resolve(wc, remotes, oracle.interpret, rev);
      trace := trace + [Cmd(name, CollapseOp(rev, message))];
      if f.Some? {
        r := Err(Mercurial(f.value));
      } else if sel.None? {
        r := Err(Unresolved(rev, oracle.unreachable));
      } else if sel.value == [] {
        r := Err(Mercurial(EmptyCollapse));
      } else {
        copies := copies[name := wc.(history := Absent(wc.history, NodeSet(sel.value)) + [Squash(sel.value, k, message, oracle.mint)])];
        r := Ok(());
      }
    }
  }
}
