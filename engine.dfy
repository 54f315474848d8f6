/**
 * The transplant engine as pure functions of the backend's state: opening clones, resolving
 * revision sets with one pull-and-retry, the commit ceiling, transplanting single commits and
 * revision sets (collapsed into one changeset), and the driver that applies a request's items,
 * pushes once and always cleans the destination up.
 *
 * Each function takes the oracle and the state before the step and gives the step's answer and
 * the state after it, issuing the same commands in the same order as the engine does; the
 * imperative engine in module Actions is proved to do exactly what these functions say.
 */
module Engine {
  import opened Base
  import opened Hg
  import Catalog

  /** The largest revision set that may be looked up or transplanted. */
  const MaxCommits: nat := 100
  /** The message filter program handed to `hg transplant`. */
  const TransplantFilter: string := "transplant_filter.py"
  /** The text that marks a strip failure as "nothing to strip". */
  const NothingToStrip: string := "empty revision set"

  datatype Error =
    | Backend(failure: Failure)         // raised by the repository handle
    | TooManyCommits(message: string)   // TooManyCommitsError
    | TransplantError(message: string)  // TransplantError
    | PlainException(message: string)   // a bare Exception

  /** Which copy of the engine runs: the task module, or the older blueprint module. */
  datatype Dialect = Current | Legacy

  /** One requested unit of work; `commit` and `revset` are the keys the request may carry. */
  datatype Item = Item(commit: Option<string>, revset: Option<string>, message: Option<string>)

  function Lift<T>(r: Result<T, Failure>): Result<T, Error>
  {
    match r
    case Ok(v) => Ok(v)
    case Err(f) => Err(Backend(f))
  }

  /** `too_many_commits_error`. */
  function TooManyCommitsMessage(current: nat, limit: nat): string
  {
    TooManyPrefix + (NatToString(current) + (TooManyMiddle + NatToString(limit) + TooManySuffix))
  }

  const TooManyPrefix: string := "You're trying to transplant "
  const TooManyMiddle: string := " commits which is above "
  const TooManySuffix: string := " commits limit"

  /** The number of leading decimal digits of `s`. */
  function DigitRun(s: string): nat
  {
    if s != [] && '0' <= s[0] <= '9' then 1 + DigitRun(s[1..]) else 0
  }

  lemma {:induction false} DigitRunOf(a: string, x: string)
    requires forall i :: 0 <= i < |a| ==> '0' <= a[i] <= '9'
    requires |x| > 0 && x[0] == ' '
    ensures DigitRun(a + x) == |a|
  {
    if a != [] {
      assert (a + x)[1..] == a[1..] + x;
      DigitRunOf(a[1..], x);
    } else {
      assert a + x == x;
    }
  }

  /** The ceiling message names the offending count: two counts never share a message. */
  lemma TooManyCommitsMessageNamesCount(a: nat, b: nat, limit: nat)
    requires TooManyCommitsMessage(a, limit) == TooManyCommitsMessage(b, limit)
    ensures a == b
  {
    var rest := TooManyMiddle + NatToString(limit) + TooManySuffix;
    var sa, sb := NatToString(a), NatToString(b);
    assert sa + rest == TooManyCommitsMessage(a, limit)[|TooManyPrefix|..];
    assert sb + rest == TooManyCommitsMessage(b, limit)[|TooManyPrefix|..];
    assert rest[0] == ' ';
    DigitRunOf(sa, rest);
    DigitRunOf(sb, rest);
    assert sa == (sa + rest)[..|sa|];
    assert sb == (sb + rest)[..|sb|];
    NatToStringInjective(a, b);
  }

  /** `raw_transplant`'s filter and environment: the filter and `TRANSPLANT_MESSAGE` are set
      exactly when a message is given (the rest of the process environment is not modelled). */
  function FilterFor(message: Option<string>): (fe: (Option<string>, map<string, string>))
    ensures fe.0.Some? <==> message.Some?
    ensures TransplantMessageVar in fe.1 <==> message.Some?
    ensures message.Some? ==> fe.1[TransplantMessageVar] == message.value
    ensures fe.1.Keys <= {TransplantMessageVar}
  {
    if message.Some? then (Some(TransplantFilter), map[TransplantMessageVar := message.value])
    else (None, map[])
  }

  /** Every changeset transplanted with a message carries exactly that message. */
  lemma {:induction false} FilteredMessages(cs: seq<Commit>, k: nat, message: Option<string>,
                                            mint: (nat, nat) -> Node, i: nat)
    requires i < |cs|
    ensures var t := Transplanted(cs, k, FilterFor(message).0, FilterFor(message).1, mint);
            t[i].message == if message.Some? then message.value else cs[i].message
  {
    var (filter, env) := FilterFor(message);
    assert Transplanted(cs, k, filter, env, mint)[i].message == NewMessage(cs[i], filter, env);
  }

  lemma FilteredMessagesAll(cs: seq<Commit>, k: nat, message: Option<string>, mint: (nat, nat) -> Node)
    ensures var t := Transplanted(cs, k, FilterFor(message).0, FilterFor(message).1, mint);
            forall i :: 0 <= i < |t| ==> t[i].message == if message.Some? then message.value else cs[i].message
  {
    forall i | 0 <= i < |cs|
      ensures Transplanted(cs, k, FilterFor(message).0, FilterFor(message).1, mint)[i].message
              == if message.Some? then message.value else cs[i].message
    {
      FilteredMessages(cs, k, message, mint, i);
    }
  }

  /** The command `raw_transplant` issues on `dst`. */
  function TransplantCmd(dst: string, src: string, rev: Revset, message: Option<string>): Cmd
  {
    Cmd(dst, TransplantOp(rev, src, FilterFor(message).0, FilterFor(message).1))
  }

  predicate NoPush(cmds: seq<Cmd>)
  {
    forall c :: c in cmds ==> !c.op.PushOp?
  }

  /** No command that rewrites history (transplant, collapse or strip). */
  predicate NoRewrite(cmds: seq<Cmd>)
  {
    forall c :: c in cmds ==> !c.op.TransplantOp? && !c.op.CollapseOp? && !c.op.StripOp?
  }

  /** The number of pushes among `cmds`. */
  function Pushes(cmds: seq<Cmd>): nat
  {
    if cmds == [] then 0 else Pushes(cmds[..|cmds| - 1]) + (if cmds[|cmds| - 1].op.PushOp? then 1 else 0)
  }

  lemma {:induction false} PushesAppend(a: seq<Cmd>, b: seq<Cmd>)
    ensures Pushes(a + b) == Pushes(a) + Pushes(b)
    decreases |b|
  {
    if b == [] {
      assert a + b == a;
    } else {
      assert (a + b)[..|a + b| - 1] == a + b[..|b| - 1];
      PushesAppend(a, b[..|b| - 1]);
    }
  }

  lemma {:induction false} NoPushCounts(cmds: seq<Cmd>)
    requires NoPush(cmds)
    ensures Pushes(cmds) == 0
  {
    if cmds != [] {
      assert cmds[|cmds| - 1] in cmds;
      NoPushCounts(cmds[..|cmds| - 1]);
    }
  }

  /** The commands `cleanup` issues, in order: update clean, purge all, strip outgoing(base). */
  function CleanupCmds(name: string): seq<Cmd>
  {
    [Cmd(name, UpdateOp(true)), Cmd(name, PurgeOp(true)), Cmd(name, StripOp(OutgoingBase, true))]
  }

  /** How `cleanup` treats the strip's outcome: a failure is swallowed exactly when its
      stderr says the revision set was empty. */
  function StripVerdict(s: Result<(), Failure>): (r: Result<(), Error>)
    ensures r.Ok? <==> s.Ok? || (s.error.Mercurial? && Contains(s.error.error.stderr, NothingToStrip))
    ensures r.Err? ==> r == Err(Backend(s.error))
  {
    match s
    case Ok(_) => Ok(())
    case Err(f) => if f.Mercurial? && Contains(f.error.stderr, NothingToStrip) then Ok(()) else Err(Backend(f))
  }

  /** Stripping a clone that has nothing outgoing is not an error. */
  lemma EmptyStripIsSwallowed()
    ensures StripVerdict(Err(Mercurial(EmptyStrip))) == Ok(())
  {
    assert EmptyRevisionSet[7..7 + |NothingToStrip|] == NothingToStrip;
    ContainsAt(EmptyRevisionSet, NothingToStrip, 7);
  }

  lemma {:induction false} NothingAbsent(x: seq<Commit>, theirs: set<Node>)
    requires forall c :: c in x ==> c.node in theirs
    ensures Absent(x, theirs) == []
  {
    if x != [] {
      assert x[0] in x;
      NothingAbsent(x[1..], theirs);
    }
  }

  /** After stripping `outgoing(base)` nothing is outgoing any more. */
  lemma StripLeavesNothingOutgoing(h: seq<Commit>, theirs: set<Node>)
    ensures Absent(Absent(h, NodeSet(Absent(h, theirs))), theirs) == []
  {
    var out := Absent(h, theirs);
    var kept := Absent(h, NodeSet(out));
    forall c | c in h && c.node !in theirs
      ensures c.node in NodeSet(out)
    {
      assert c in out;
    }
    NothingAbsent(kept, theirs);
  }

  /** The clone `cleanup` leaves behind when no command fails: no local modification, no untracked
      file, and whatever was outgoing to the base remote stripped. */
  function AfterCleanup(wc: WorkingCopy, remotes: map<string, seq<Commit>>): WorkingCopy
    requires OutgoingOf(wc, remotes).Some?
  {
    var out := OutgoingOf(wc, remotes).value;
    wc.(dirty := false, untracked := {},
        history := if out == [] then wc.history else Absent(wc.history, NodeSet(out)))
  }

  /** Cleanup leaves a clean clone: nothing modified, nothing untracked, nothing outgoing. */
  lemma CleanupLeavesClean(wc: WorkingCopy, remotes: map<string, seq<Commit>>)
    requires OutgoingOf(wc, remotes).Some?
    ensures Clean(AfterCleanup(wc, remotes), remotes)
  {
    StripLeavesNothingOutgoing(wc.history, NodeSet(remotes[wc.basePath.value]));
  }

  /** Cleanup changes nothing in a clone that is already clean. */
  lemma CleanupOfCleanCopy(wc: WorkingCopy, remotes: map<string, seq<Commit>>)
    requires Clean(wc, remotes)
    ensures AfterCleanup(wc, remotes) == wc
  {
  }

  /** Cleanup is idempotent: a second run leaves the clone as the first one did. */
  lemma CleanupIdempotent(wc: WorkingCopy, remotes: map<string, seq<Commit>>)
    requires OutgoingOf(wc, remotes).Some?
    ensures OutgoingOf(AfterCleanup(wc, remotes), remotes).Some?
    ensures AfterCleanup(AfterCleanup(wc, remotes), remotes) == AfterCleanup(wc, remotes)
  {
    CleanupLeavesClean(wc, remotes);
    CleanupOfCleanCopy(AfterCleanup(wc, remotes), remotes);
  }

  /** Only the local commits missing from the base remote are removed; everything it has stays. */
  lemma CleanupKeepsPublished(wc: WorkingCopy, remotes: map<string, seq<Commit>>, c: Commit)
    requires OutgoingOf(wc, remotes).Some?
    requires c in wc.history && c.node in NodeSet(remotes[wc.basePath.value])
    ensures c in AfterCleanup(wc, remotes).history
  {
  }

  /** A conflicting transplant leaves modifications and reject files but no new changeset;
      cleanup afterwards gives back the clone cleanup alone would have left, so the working
      copy keeps its own content and no reject file survives. */
  lemma ConflictUndoneByCleanup(wc: WorkingCopy, remotes: map<string, seq<Commit>>, rejected: set<string>)
    requires OutgoingOf(wc, remotes).Some?
    ensures var conflicted := wc.(dirty := true, untracked := wc.untracked + rejected);
      OutgoingOf(conflicted, remotes).Some?
      && AfterCleanup(conflicted, remotes) == AfterCleanup(wc, remotes)
      && (forall c :: c in AfterCleanup(conflicted, remotes).history ==> c in wc.history)
      && !AfterCleanup(conflicted, remotes).dirty && AfterCleanup(conflicted, remotes).untracked == {}
  {
  }

  /** What `collapse` promises of the changeset it makes: the caller's message, or without one
      every squashed changeset's message. */
  lemma SquashKeepsMessages(cs: seq<Commit>, k: nat, message: Option<string>, mint: (nat, nat) -> Node)
    requires cs != []
    ensures message.Some? ==> Squash(cs, k, message, mint).message == message.value
    ensures message.None? ==> forall i :: 0 <= i < |cs| ==> Contains(Squash(cs, k, message, mint).message, cs[i].message)
  {
    if message.None? {
      forall i | 0 <= i < |cs|
        ensures Contains(Squash(cs, k, message, mint).message, cs[i].message)
      {
        JoinedKeepsMessages(cs, i);
      }
    }
  }

  /** Python's `repr` of an item that has neither `commit` nor `revset`: only `message` can be left. */
  function ItemRepr(item: Item): string
  {
    if item.message.Some? then "{u'message': u'" + item.message.value + "'}" else "{}"
  }

  /** `"unknown item: {}".format(item)`, raised as TransplantError by the task module and as a
      bare Exception by the older blueprint module. */
  function UnknownItemError(item: Item, dialect: Dialect): (e: Error)
    ensures e.TransplantError? <==> dialect.Current?
    ensures e.PlainException? <==> dialect.Legacy?
    ensures e.TransplantError? ==> e.message == "unknown item: " + ItemRepr(item)
    ensures e.PlainException? ==> e.message == "unknown item: " + ItemRepr(item)
  {
    var text := "unknown item: " + ItemRepr(item);
    if dialect == Current then TransplantError(text) else PlainException(text)
  }

  // ---------------------------------------------------------------------------------------
  // The engine's operations, step by step.

  /** What an engine operation answers and the state it leaves behind. */
  datatype Ran<+T> = Ran(result: Result<T, Error>, after: State)

  /** A backend command's outcome, its failure raised unchanged. */
  function Raised<T>(st: Step<T>): Ran<T>
  {
    Ran(Lift(st.result), st.after)
  }

  /** The commands issued on the way from `s` to `t`. */
  function Added(s: State, t: State): seq<Cmd>
    requires s.trace <= t.trace
  {
    t.trace[|s.trace|..]
  }

  lemma AddedSplit(a: State, b: State, c: State)
    requires a.trace <= b.trace <= c.trace
    ensures Added(a, c) == Added(a, b) + Added(b, c)
  {
    assert c.trace == b.trace + Added(b, c);
  }

  lemma AddedOf(s: State, t: State, cmds: seq<Cmd>)
    requires t.trace == s.trace + cmds
    ensures s.trace <= t.trace && Added(s, t) == cmds
  {
  }

  /** The clone `clone(name)` issues: none when a clone of that name is already on disk. */
  function Opening(repos: seq<Catalog.Entry>, s: State, name: string): seq<Cmd>
  {
    if name in s.copies then [] else [Cmd(name, CloneOp(Catalog.RepoBaseUrl(repos, name)))]
  }

  /** `clone(name)`: reopen the existing clone, or clone from the base URL when there is none;
      in both cases the paths are rewritten from the catalog. */
  function Clone(o: Oracle, repos: seq<Catalog.Entry>, s: State, name: string): (r: Ran<()>)
    ensures r.after.remotes == s.remotes && r.after.trace == s.trace + Opening(repos, s, name)
    ensures s.copies.Keys <= r.after.copies.Keys <= s.copies.Keys + {name}
    ensures name in r.after.copies ==> r.after.copies == s.copies[name := r.after.copies[name]]
    ensures r.result.Ok? <==> name in r.after.copies
    ensures r.result.Ok? <==> (name in s.copies || (NextFault(o, s).None?
      && Catalog.RepoBaseUrl(repos, name).Some? && Catalog.RepoBaseUrl(repos, name).value in s.remotes))
    ensures r.result.Err? ==> r.after.copies == s.copies && r.result.error.Backend? && r.result.error.failure.Mercurial?
    ensures r.result.Ok? ==> r.after.copies[name].defaultPath == Catalog.RepoUrl(repos, name)
                             && r.after.copies[name].basePath == Catalog.RepoBaseUrl(repos, name)
    ensures name in s.copies ==> (r.after.copies[name].history == s.copies[name].history
      && r.after.copies[name].dirty == s.copies[name].dirty && r.after.copies[name].untracked == s.copies[name].untracked)
    ensures name !in s.copies && r.result.Ok? ==> var base := Catalog.RepoBaseUrl(repos, name);
      r.after.copies[name].history == s.remotes[base.value]
      && !r.after.copies[name].dirty && r.after.copies[name].untracked == {}
  {
    var url := Catalog.RepoUrl(repos, name);
    var base := Catalog.RepoBaseUrl(repos, name);
    if name in s.copies then Ran(Ok(()), WithPaths(s, name, url, base))
    else
      var c := CloneStep(o, s, name, base);
      if c.result.Err? then Ran(Err(Backend(c.result.error)), c.after)
      else Ran(Ok(()), WithPaths(c.after, name, url, base))
  }

  /** `optimistic_log`: log; only when that raised UnknownRevision, pull once and log again. */
  function OptimisticLog(o: Oracle, s: State, name: string, rev: Revset): (r: Ran<seq<Commit>>)
    requires name in s.copies
    ensures r.after.remotes == s.remotes && s.trace <= r.after.trace
    ensures r.after.copies.Keys == s.copies.Keys
    ensures r.after.copies == s.copies[name := r.after.copies[name]]
    ensures r.after.copies[name] == s.copies[name].(history := r.after.copies[name].history)
    ensures r.result.Err? ==> r.result.error.Backend?
    ensures r.result.Ok? ==> Resolve(r.after.copies[name], r.after.remotes, o.interpret, rev) == Some(r.result.value)
  {
    var first := LogStep(o, s, name, rev);
    if first.result.Err? && first.result.error.UnknownRevision? then
      var pulled := PullStep(o, first.after, name, rev, true);
      if pulled.result.Err? then Ran(Err(Backend(pulled.result.error)), pulled.after)
      else Raised(LogStep(o, pulled.after, name, rev))
    else Raised(first)
  }

  /** `get_revset_info`: open the clone, resolve the revset, enforce the ceiling. */
  function GetRevsetInfo(o: Oracle, repos: seq<Catalog.Entry>, s: State, name: string, revset: string)
    : (r: Ran<seq<Commit>>)
    ensures r.after.remotes == s.remotes && s.trace <= r.after.trace
    ensures s.copies.Keys <= r.after.copies.Keys
  {
    var c := Clone(o, repos, s, name);
    if c.result.Err? then Ran(Err(c.result.error), c.after)
    else
      var l := OptimisticLog(o, c.after, name, Expr(revset));
      if l.result.Ok? && |l.result.value| > MaxCommits
      then Ran(Err(TooManyCommits(TooManyCommitsMessage(|l.result.value|, MaxCommits))), l.after)
      else l
  }

  /** The first half of `cleanup`: update clean, then purge every untracked file. */
  function ResetWorkingDirectory(o: Oracle, s: State, name: string): (r: Ran<()>)
    requires name in s.copies
    ensures r.after.remotes == s.remotes && s.trace <= r.after.trace
    ensures r.after.copies.Keys == s.copies.Keys
    ensures r.after.copies == s.copies[name := r.after.copies[name]]
    ensures r.after.copies[name].history == s.copies[name].history
    ensures r.after.copies[name].basePath == s.copies[name].basePath
  {
    var u := UpdateStep(o, s, name, true);
    if u.result.Err? then Raised(u) else Raised(PurgeStep(o, u.after, name, true))
  }

  /** `cleanup`: update clean, purge, then strip `outgoing(base)` without backup; update and
      purge failures propagate, a strip failure only when it is not "empty revision set". */
  function Cleanup(o: Oracle, s: State, name: string): (r: Ran<()>)
    requires name in s.copies
    ensures r.after.remotes == s.remotes && s.trace <= r.after.trace
    ensures r.after.copies.Keys == s.copies.Keys
    ensures r.after.copies == s.copies[name := r.after.copies[name]]
  {
    var reset := ResetWorkingDirectory(o, s, name);
    if reset.result.Err? then reset
    else
      var strip := StripStep(o, reset.after, name, OutgoingBase, true);
      Ran(StripVerdict(strip.result), strip.after)
  }

  /** `raw_transplant`: `hg transplant` from the clone `source`, with the message filter when a
      message is given. */
  function RawTransplant(o: Oracle, s: State, dst: string, source: string, rev: Revset, message: Option<string>)
    : (r: Ran<()>)
    requires dst in s.copies
    ensures r.after.remotes == s.remotes && r.after.trace == s.trace + [TransplantCmd(dst, source, rev, message)]
    ensures r.after.copies.Keys == s.copies.Keys
    ensures r.after.copies == s.copies[dst := r.after.copies[dst]]
    ensures r.result.Err? ==> r.result.error.Backend?
  {
    Raised(TransplantStep(o, s, dst, rev, source, FilterFor(message).0, FilterFor(message).1))
  }

  /** The `clone(src)`, `clone(dst)` pair every transplant step starts with. */
  function OpenPair(o: Oracle, repos: seq<Catalog.Entry>, s: State, src: string, dst: string): (r: Ran<()>)
    ensures r.after.remotes == s.remotes && s.trace <= r.after.trace
    ensures s.copies.Keys <= r.after.copies.Keys
    ensures r.result.Ok? ==> src in r.after.copies && dst in r.after.copies
    ensures r.result.Err? ==> r.result.error.Backend?
    ensures forall n :: n in s.copies && n != src && n != dst ==> r.after.copies[n] == s.copies[n]
    ensures forall n :: n in s.copies ==> (r.after.copies[n].history == s.copies[n].history
      && r.after.copies[n].dirty == s.copies[n].dirty && r.after.copies[n].untracked == s.copies[n].untracked)
  {
    var a := Clone(o, repos, s, src);
    if a.result.Err? then a else Clone(o, repos, a.after, dst)
  }

  /** `_transplant`: open both clones, make sure the source has the revisions (a log that pulls
      once when they are unknown), `hg transplant` them into the destination, update it. */
  function TransplantRevisions(o: Oracle, repos: seq<Catalog.Entry>, s: State, src: string, dst: string,
                               rev: Revset, message: Option<string>): (r: Ran<()>)
    ensures r.after.remotes == s.remotes && s.trace <= r.after.trace
    ensures s.copies.Keys <= r.after.copies.Keys
    ensures r.result.Ok? ==> src in r.after.copies && dst in r.after.copies
    ensures r.result.Err? ==> r.result.error.Backend?
  {
    var p := OpenPair(o, repos, s, src, dst);
    if p.result.Err? then p else LogThenTransplant(o, p.after, src, dst, rev, message)
  }

  /** The part of `_transplant` after both clones are open: the source's log (pulling once), the
      transplant into the destination, and the update. */
  function LogThenTransplant(o: Oracle, s: State, src: string, dst: string, rev: Revset,
                             message: Option<string>): (r: Ran<()>)
    requires src in s.copies && dst in s.copies
    ensures r.after.remotes == s.remotes && s.trace <= r.after.trace
    ensures s.copies.Keys == r.after.copies.Keys
    ensures r.result.Err? ==> r.result.error.Backend?
  {
    var l := OptimisticLog(o, s, src, rev);
    if l.result.Err? then Ran(Err(l.result.error), l.after)
    else
      var t := RawTransplant(o, l.after, dst, src, rev, message);
      if t.result.Err? then t
      else Raised(UpdateStep(o, t.after, dst, false))
  }

  /** `transplant_commit`: one revision, with the item's message if it has one. */
  function TransplantCommit(o: Oracle, repos: seq<Catalog.Entry>, s: State, src: string, dst: string,
                            commit: string, message: Option<string>): (r: Ran<()>)
    ensures r.after.remotes == s.remotes && s.trace <= r.after.trace
    ensures s.copies.Keys <= r.after.copies.Keys
    ensures r.result.Ok? ==> dst in r.after.copies
    ensures r.result.Err? ==> r.result.error.Backend?
  {
    TransplantRevisions(o, repos, s, src, dst, Expr(commit), message)
  }

  /** The tail of `transplant_revset`: log what arrived after the old tip and, when that is at
      least two changesets, collapse them into one carrying the item's message. */
  function CollapseArrivals(o: Oracle, s: State, dst: string, oldTip: Node, message: Option<string>): (r: Ran<()>)
    requires dst in s.copies
    ensures r.after.remotes == s.remotes && s.trace <= r.after.trace
    ensures r.after.copies.Keys == s.copies.Keys
    ensures r.after.copies == s.copies[dst := r.after.copies[dst]]
    ensures r.result.Err? ==> r.result.error.Backend?
  {
    var rev := DescendantsOfChildren(oldTip);
    var l := LogStep(o, s, dst, rev);
    if l.result.Err? then Ran(Err(Backend(l.result.error)), l.after)
    else if |l.result.value| < 2 then Ran(Ok(()), l.after)
    else Raised(CollapseStep(o, l.after, dst, rev, message))
  }

  /** The several-changesets branch of `transplant_revset`: remember the destination tip, transplant
      the changesets by id without a message, then collapse what arrived after the old tip. */
  function TransplantAndCollapse(o: Oracle, repos: seq<Catalog.Entry>, s: State, src: string, dst: string,
                                 commits: seq<Commit>, message: Option<string>): (r: Ran<()>)
    requires dst in s.copies
    ensures r.after.remotes == s.remotes && s.trace <= r.after.trace
    ensures s.copies.Keys <= r.after.copies.Keys
    ensures r.result.Err? ==> r.result.error.Backend?
  {
    var id := IdStep(o, s, dst);
    if id.result.Err? then Ran(Err(Backend(id.result.error)), id.after)
    else
      var t := TransplantRevisions(o, repos, id.after, src, dst, Nodes(NodesOf(commits)), None);
      if t.result.Err? then t
      else CollapseArrivals(o, t.after, dst, id.result.value, message)
  }

  /** `transplant_revset` once both clones are open: resolve the revset in the source under the
      ceiling; nothing to do for no changeset; one changeset goes by the caller's revset with the
      message; several go by id and are then collapsed. */
  function RevsetIntoOpenClone(o: Oracle, repos: seq<Catalog.Entry>, s: State, src: string, dst: string,
                               revset: string, message: Option<string>): (r: Ran<()>)
    requires src in s.copies && dst in s.copies
    ensures r.after.remotes == s.remotes && s.trace <= r.after.trace
    ensures s.copies.Keys <= r.after.copies.Keys
    ensures r.result.Err? ==> r.result.error.Backend? || r.result.error.TooManyCommits?
  {
    var l := OptimisticLog(o, s, src, Expr(revset));
    if l.result.Err? then Ran(Err(l.result.error), l.after)
    else
      var n := |l.result.value|;
      if n > MaxCommits then Ran(Err(TooManyCommits(TooManyCommitsMessage(n, MaxCommits))), l.after)
      else if n == 0 then Ran(Ok(()), l.after)
      else if n == 1 then TransplantRevisions(o, repos, l.after, src, dst, Expr(revset), message)
      else TransplantAndCollapse(o, repos, l.after, src, dst, l.result.value, message)
  }

  /** `transplant_revset`: open both clones, then resolve, transplant and collapse. */
  function TransplantRevset(o: Oracle, repos: seq<Catalog.Entry>, s: State, src: string, dst: string,
                            revset: string, message: Option<string>): (r: Ran<()>)
    ensures r.after.remotes == s.remotes && s.trace <= r.after.trace
    ensures s.copies.Keys <= r.after.copies.Keys
    ensures r.result.Err? ==> r.result.error.Backend? || r.result.error.TooManyCommits?
  {
    var p := OpenPair(o, repos, s, src, dst);
    if p.result.Err? then p
    else RevsetIntoOpenClone(o, repos, p.after, src, dst, revset, message)
  }

  /** `transplant_item`: a `commit` key wins over a `revset` key; an item with neither is an error
      and issues no command. */
  function TransplantItem(o: Oracle, repos: seq<Catalog.Entry>, s: State, src: string, dst: string,
                          item: Item, dialect: Dialect): (r: Ran<()>)
    ensures r.after.remotes == s.remotes && s.trace <= r.after.trace
    ensures s.copies.Keys <= r.after.copies.Keys
  {
    if item.commit.Some? then TransplantCommit(o, repos, s, src, dst, item.commit.value, item.message)
    else if item.revset.Some? then TransplantRevset(o, repos, s, src, dst, item.revset.value, item.message)
    else Ran(Err(UnknownItemError(item, dialect)), s)
  }

  /** How far the loop over the items got: how many succeeded, the error that stopped it, and the state. */
  datatype Progress = Progress(applied: nat, failure: Option<Error>, after: State)

  /** The loop of `transplant`: items in request order until the first one fails. */
  function ApplyItems(o: Oracle, repos: seq<Catalog.Entry>, s: State, src: string, dst: string,
                      items: seq<Item>, dialect: Dialect): (p: Progress)
    ensures p.after.remotes == s.remotes && s.trace <= p.after.trace
    ensures s.copies.Keys <= p.after.copies.Keys
    ensures p.applied <= |items|
    ensures p.failure.None? <==> p.applied == |items|
    decreases |items|
  {
    if items == [] then Progress(0, None, s)
    else
      var t := TransplantItem(o, repos, s, src, dst, items[0], dialect);
      if t.result.Err? then Progress(0, Some(t.result.error), t.after)
      else
        var rest := ApplyItems(o, repos, t.after, src, dst, items[1..], dialect);
        Progress(rest.applied + 1, rest.failure, rest.after)
  }

  /** The end of `transplant`'s body: push the destination, then read its tip. */
  function PushAndTip(o: Oracle, s: State, dst: string): (r: Ran<Node>)
    requires dst in s.copies
    ensures r.after.copies == s.copies && s.trace <= r.after.trace
  {
    var p := PushStep(o, s, dst);
    if p.result.Err? then Ran(Err(Backend(p.result.error)), p.after)
    else Raised(IdStep(o, p.after, dst))
  }

  /** The `try` body of `transplant`: every item, then the push and the tip. */
  function ItemsThenPush(o: Oracle, repos: seq<Catalog.Entry>, s: State, src: string, dst: string,
                         items: seq<Item>, dialect: Dialect): (r: Ran<Node>)
    requires dst in s.copies
    ensures s.trace <= r.after.trace && s.copies.Keys <= r.after.copies.Keys
  {
    var a := ApplyItems(o, repos, s, src, dst, items, dialect);
    if a.failure.Some? then Ran(Err(a.failure.value), a.after)
    else PushAndTip(o, a.after, dst)
  }

  /** The part of `transplant` after the destination opened: the items and the push, then the
      cleanup, whose error replaces the result. */
  function RunOnClone(o: Oracle, repos: seq<Catalog.Entry>, s: State, src: string, dst: string,
                      items: seq<Item>, dialect: Dialect): (r: Ran<Node>)
    requires dst in s.copies
    ensures s.trace <= r.after.trace && s.copies.Keys <= r.after.copies.Keys
  {
    var body := ItemsThenPush(o, repos, s, src, dst, items, dialect);
    var cleanup := Cleanup(o, body.after, dst);
    Ran(if cleanup.result.Err? then Err(cleanup.result.error) else body.result, cleanup.after)
  }

  /** `transplant`: open the destination, apply the items in order (the first failure stops the
      loop), push once and read the tip; whatever happened after the destination opened, clean it
      up, and an error from the cleanup replaces the result. */
  function Transplant(o: Oracle, repos: seq<Catalog.Entry>, s: State, src: string, dst: string,
                      items: seq<Item>, dialect: Dialect): (r: Ran<Node>)
    ensures s.trace <= r.after.trace && s.copies.Keys <= r.after.copies.Keys
  {
    var c := Clone(o, repos, s, dst);
    if c.result.Err? then Ran(Err(c.result.error), c.after)
    else RunOnClone(o, repos, c.after, src, dst, items, dialect)
  }
}
