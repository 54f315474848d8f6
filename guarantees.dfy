/**
 * What the engine promises, proved about the step functions of module Engine (and so, through
 * the equalities the methods of module Actions carry, about every run): one pull at most when
 * a revision is unknown, the commit ceiling before anything is rewritten, which revisions are
 * transplanted and collapsed with which message, a single push after every item succeeded,
 * and a cleanup of the destination whenever it was opened.
 */
module Guarantees {
  import opened Base
  import opened Hg
  import Catalog
  import opened Engine

  // ---------------------------------------------------------------------------------------
  // Resolving revisions

  /** `optimistic_log` logs first; it pulls (once) only when that log reported an unknown
      revision. A failed pull is the answer; after a successful pull it logs again, and that
      second answer, failure included, is the answer with no further retry. Otherwise the first
      answer is the answer. */
  lemma OptimisticLogPullsOnce(o: Oracle, s: State, name: string, rev: Revset)
    requires name in s.copies
    ensures var r := OptimisticLog(o, s, name, rev); var first := LogAnswer(o, s, name, rev);
      var log, pull := Cmd(name, LogOp(rev)), Cmd(name, PullOp(rev, true));
      if first.Err? && first.error.UnknownRevision?
      then
        var pulled := PullStep(o, Issue(s, log), name, rev, true);
        (pulled.result.Err? ==> Added(s, r.after) == [log, pull] && r.result == Err(Backend(pulled.result.error)))
        && (pulled.result.Ok? ==>
              Added(s, r.after) == [log, pull, log] && r.result == Lift(LogAnswer(o, pulled.after, name, rev)))
      else Added(s, r.after) == [log] && r.result == Lift(first)
  {
  }

  /** The log that pulls once issues its commands on the one clone, the log first. */
  lemma OptimisticLogCommands(o: Oracle, s: State, name: string, rev: Revset)
    requires name in s.copies
    ensures var cmds := Added(s, OptimisticLog(o, s, name, rev).after);
      |cmds| > 0 && cmds[0] == Cmd(name, LogOp(rev))
      && forall c :: c in cmds ==> c == Cmd(name, LogOp(rev)) || c == Cmd(name, PullOp(rev, true))
  {
    OptimisticLogPullsOnce(o, s, name, rev);
  }

  /** The commands `clone(name)` issues are clones of that name. */
  lemma OpeningClones(repos: seq<Catalog.Entry>, s: State, name: string)
    ensures forall c :: c in Opening(repos, s, name) ==> c.op.CloneOp? && c.repo == name
  {
  }

  /** The lookup clones (when needed), then resolves the revset in that clone with the log first;
      it touches no other repository and rewrites nothing. */
  lemma GetRevsetInfoCommands(o: Oracle, repos: seq<Catalog.Entry>, s: State, name: string, revset: string)
    ensures var r := GetRevsetInfo(o, repos, s, name, revset); var cmds := Added(s, r.after);
      var opening := Opening(repos, s, name);
      (forall c :: c in cmds ==> c.repo == name && (c.op.CloneOp? || c.op == LogOp(Expr(revset))
                                                    || c.op == PullOp(Expr(revset), true)))
      && opening <= cmds
      && (Clone(o, repos, s, name).result.Err? ==> cmds == opening && r.result.Err?)
      && (Clone(o, repos, s, name).result.Ok? ==>
            |cmds| > |opening| && cmds[|opening|] == Cmd(name, LogOp(Expr(revset))))
  {
    hide OptimisticLog;
    var c := Clone(o, repos, s, name);
    var r := GetRevsetInfo(o, repos, s, name, revset);
    assert Added(s, c.after) == Opening(repos, s, name);
    OpeningClones(repos, s, name);
    if c.result.Ok? {
      var l := OptimisticLog(o, c.after, name, Expr(revset));
      OptimisticLogCommands(o, c.after, name, Expr(revset));
      assert r.after == l.after;
      AddedSplit(s, c.after, l.after);
    } else {
      assert r == Ran(Err(c.result.error), c.after);
    }
  }

  /** What the lookup answers is what the revset selects in the clone, within the ceiling; more
      than the ceiling is refused with a message naming the count. */
  lemma GetRevsetInfoCeiling(o: Oracle, repos: seq<Catalog.Entry>, s: State, name: string, revset: string)
    ensures var r := GetRevsetInfo(o, repos, s, name, revset);
      (r.result.Err? ==> r.result.error.Backend? || r.result.error.TooManyCommits?)
      && (r.result.Ok? ==>
            name in r.after.copies && |r.result.value| <= MaxCommits
            && Resolve(r.after.copies[name], r.after.remotes, o.interpret, Expr(revset)) == Some(r.result.value))
      && (r.result.Err? && r.result.error.TooManyCommits? ==>
            name in r.after.copies
            && var sel := Resolve(r.after.copies[name], r.after.remotes, o.interpret, Expr(revset));
            sel.Some? && |sel.value| > MaxCommits
            && r.result.error.message == TooManyCommitsMessage(|sel.value|, MaxCommits))
    ensures var c := Clone(o, repos, s, name); var r := GetRevsetInfo(o, repos, s, name, revset);
      (c.result.Err? ==> r.result.Err? && r.result.error.Backend?)
      && (c.result.Ok? ==>
            var l := OptimisticLog(o, c.after, name, Expr(revset));
            (l.result.Err? || |l.result.value| <= MaxCommits ==> r.result == l.result))
      && (r.result.Err? && r.result.error.TooManyCommits? <==>
            c.result.Ok? && var l := OptimisticLog(o, c.after, name, Expr(revset));
            l.result.Ok? && |l.result.value| > MaxCommits)
  {
    var c := Clone(o, repos, s, name);
    if c.result.Ok? {
      var l := OptimisticLog(o, c.after, name, Expr(revset));
      var r := GetRevsetInfo(o, repos, s, name, revset);
      assert r.after == l.after;
    }
  }

  // ---------------------------------------------------------------------------------------
  // Cleaning up

  /** Resetting the working directory updates clean, then purges everything untracked, stopping
      at the first failure; when both succeed nothing is modified or untracked, and the history
      is never touched. */
  lemma ResetWorkingDirectoryOutcome(o: Oracle, s: State, name: string)
    requires name in s.copies
    ensures var r := ResetWorkingDirectory(o, s, name); var cmds := Added(s, r.after); var k := |s.trace|;
      (cmds == [Cmd(name, UpdateOp(true))] || cmds == [Cmd(name, UpdateOp(true)), Cmd(name, PurgeOp(true))])
      && (|cmds| == 2 <==> o.fault(k).None?)
      && (r.result.Ok? <==> o.fault(k).None? && o.fault(k + 1).None?)
      && (r.result.Err? ==> r.result.error.Backend? && r.result.error.failure.Mercurial?)
      && (r.result.Ok? ==> !r.after.copies[name].dirty && r.after.copies[name].untracked == {})
  {
    var u := UpdateStep(o, s, name, true);
    var r := ResetWorkingDirectory(o, s, name);
    if u.result.Err? {
      AddedOf(s, r.after, [Cmd(name, UpdateOp(true))]);
    } else {
      AddedOf(s, r.after, [Cmd(name, UpdateOp(true)), Cmd(name, PurgeOp(true))]);
    }
  }

  /** `cleanup` issues a prefix of update clean, purge all, strip outgoing(base); it stops early
      only on an error; once it reached the strip, no modification and no untracked file is
      left, and its answer is the strip's outcome judged by StripVerdict. */
  lemma CleanupCommands(o: Oracle, s: State, name: string)
    requires name in s.copies
    ensures var r := Cleanup(o, s, name); var cmds := Added(s, r.after); var k := |s.trace|;
      1 <= |cmds| <= 3 && cmds == CleanupCmds(name)[..|cmds|]
      && (|cmds| == 3 <==> o.fault(k).None? && o.fault(k + 1).None?)
      && (|cmds| < 3 ==> r.result.Err? && r.result.error.Backend?)
      && (|cmds| == 3 ==> !r.after.copies[name].dirty && r.after.copies[name].untracked == {})
      && (|cmds| == 3 ==>
            var out := OutgoingOf(s.copies[name], s.remotes);
            var strip := if o.fault(k + 2).Some? then Err(Mercurial(o.fault(k + 2).value))
                         else if out.None? then Err(Mercurial(o.unreachable))
                         else if out.value == [] then Err(Mercurial(EmptyStrip))
                         else Ok(());
            r.result == StripVerdict(strip))
  {
    var reset := ResetWorkingDirectory(o, s, name);
    if reset.result.Ok? {
      assert OutgoingOf(reset.after.copies[name], reset.after.remotes) == OutgoingOf(s.copies[name], s.remotes);
    }
  }

  /** On a backend that does not fail, `cleanup` succeeds and leaves exactly AfterCleanup: a clean
      clone, whose published changesets all stay. */
  lemma CleanupWhenHealthy(o: Oracle, s: State, name: string)
    requires name in s.copies
    requires o.fault(|s.trace|).None? && o.fault(|s.trace| + 1).None? && o.fault(|s.trace| + 2).None?
    requires OutgoingOf(s.copies[name], s.remotes).Some?
    ensures var r := Cleanup(o, s, name);
      r.result.Ok? && r.after.copies == s.copies[name := AfterCleanup(s.copies[name], s.remotes)]
      && Clean(r.after.copies[name], r.after.remotes)
  {
    var wc := s.copies[name];
    var reset := ResetWorkingDirectory(o, s, name);
    var reset1 := wc.(dirty := false, untracked := {});
    assert reset.after.copies == s.copies[name := reset1] && reset.after.remotes == s.remotes;
    assert OutgoingOf(reset1, s.remotes) == OutgoingOf(wc, s.remotes);
    var strip := StripStep(o, reset.after, name, OutgoingBase, true);
    var r := Cleanup(o, s, name);
    assert r == Ran(StripVerdict(strip.result), strip.after);
    if OutgoingOf(wc, s.remotes).value == [] {
      EmptyStripIsSwallowed();
      assert strip.after.copies == s.copies[name := reset1];
    } else {
      assert strip.after.copies == s.copies[name := reset1.(history := Absent(wc.history, NodeSet(OutgoingOf(wc, s.remotes).value)))];
    }
    assert strip.after.copies[name] == AfterCleanup(wc, s.remotes);
    CleanupLeavesClean(wc, s.remotes);
  }

  // ---------------------------------------------------------------------------------------
  // Opening clones and transplanting

  /** The source opens before the destination, each with a clone only when none is on disk; an
      opened clone has its paths rewritten from the catalog and keeps its changesets and its
      working directory. */
  lemma OpenPairOrder(o: Oracle, repos: seq<Catalog.Entry>, s: State, src: string, dst: string)
    ensures var r := OpenPair(o, repos, s, src, dst); var cmds := Added(s, r.after);
      var both := Opening(repos, s, src) + (if dst == src then [] else Opening(repos, s, dst));
      cmds <= both
      && (forall c :: c in cmds ==> c.op.CloneOp? && (c.repo == src || c.repo == dst))
      && (r.result.Ok? ==> cmds == both)
      && (r.result.Err? ==> cmds == Opening(repos, s, src) || cmds == both)
      && (r.result.Ok? ==> forall n :: n == src || n == dst ==>
            r.after.copies[n].defaultPath == Catalog.RepoUrl(repos, n)
            && r.after.copies[n].basePath == Catalog.RepoBaseUrl(repos, n))
  {
    var a := Clone(o, repos, s, src);
    var r := OpenPair(o, repos, s, src, dst);
    OpeningClones(repos, s, src);
    OpeningClones(repos, s, dst);
    if a.result.Ok? {
      var b := Clone(o, repos, a.after, dst);
      assert r == b;
      AddedSplit(s, a.after, b.after);
      assert Added(s, a.after) == Opening(repos, s, src);
      assert Added(a.after, b.after) == Opening(repos, a.after, dst);
      assert Opening(repos, a.after, dst) == (if dst == src then [] else Opening(repos, s, dst));
    } else {
      assert r == a;
      assert Added(s, a.after) == Opening(repos, s, src);
    }
  }

  /** Whether the changesets that arrive carry the item's message: every one of them when a
      message is given. */
  predicate MessagesOf(arrived: seq<Commit>, logged: seq<Commit>, message: Option<string>)
  {
    |arrived| == |logged|
    && forall i :: 0 <= i < |arrived| ==>
         arrived[i].message == if message.Some? then message.value else logged[i].message
  }

  /** `raw_transplant` appends to the destination a copy of each changeset the revision set
      selects in the source that the destination does not already hold, in order, each carrying
      the message when one is given; a conflict leaves the working copy modified with the reject
      files, and any other failure changes nothing. */
  lemma RawTransplantArrivals(o: Oracle, s: State, dst: string, src: string, rev: Revset, message: Option<string>)
    requires dst in s.copies
    ensures var r := RawTransplant(o, s, dst, src, rev, message); var wc := s.copies[dst];
      (r.result.Ok? ==>
         src in s.copies && Resolve(s.copies[src], s.remotes, o.interpret, rev).Some?
         && var sel := Resolve(s.copies[src], s.remotes, o.interpret, rev).value;
         var news := Absent(sel, NodeSet(wc.history));
         var arrived := Transplanted(news, |s.trace|, FilterFor(message).0, FilterFor(message).1, o.mint);
         r.after.copies[dst] == wc.(history := wc.history + arrived) && MessagesOf(arrived, news, message))
      && (NextFault(o, s).Some? ==>
            r.result.Err? && r.after.copies[dst] == wc.(dirty := true, untracked := wc.untracked + o.rejects(|s.trace|)))
      && (r.result.Err? && NextFault(o, s).None? ==> r.after.copies == s.copies)
  {
    var r := RawTransplant(o, s, dst, src, rev, message);
    if r.result.Ok? {
      var sel := Resolve(s.copies[src], s.remotes, o.interpret, rev).value;
      FilteredMessagesAll(Absent(sel, NodeSet(s.copies[dst].history)), |s.trace|, message, o.mint);
    }
  }

  /** Every command `_transplant` issues is a clone, the source's log or pull of the revisions,
      the one transplant into the destination, or the update after it. */
  predicate TransplantRevisionsCmd(c: Cmd, src: string, dst: string, rev: Revset, message: Option<string>)
  {
    c.op.CloneOp? || c == Cmd(src, LogOp(rev)) || c == Cmd(src, PullOp(rev, true))
    || c == TransplantCmd(dst, src, rev, message) || c == Cmd(dst, UpdateOp(false))
  }

  predicate AllTransplantRevisionsCmds(cmds: seq<Cmd>, src: string, dst: string, rev: Revset, message: Option<string>)
  {
    forall c :: c in cmds ==> TransplantRevisionsCmd(c, src, dst, rev, message)
  }

  lemma AllTransplantRevisionsCmdsAppend(a: seq<Cmd>, b: seq<Cmd>, src: string, dst: string, rev: Revset,
                                         message: Option<string>)
    requires AllTransplantRevisionsCmds(a, src, dst, rev, message)
    requires AllTransplantRevisionsCmds(b, src, dst, rev, message)
    ensures AllTransplantRevisionsCmds(a + b, src, dst, rev, message)
  {
  }

  lemma LogThenTransplantCommands(o: Oracle, s: State, src: string, dst: string, rev: Revset,
                                  message: Option<string>)
    requires src in s.copies && dst in s.copies
    ensures var r := LogThenTransplant(o, s, src, dst, rev, message);
      AllTransplantRevisionsCmds(Added(s, r.after), src, dst, rev, message)
  {
    hide OptimisticLog, RawTransplant, UpdateStep, Added;
    var r := LogThenTransplant(o, s, src, dst, rev, message);
    var l := OptimisticLog(o, s, src, rev);
    OptimisticLogCommands(o, s, src, rev);
    var tail: seq<Cmd> := [];
    if l.result.Ok? {
      var t := RawTransplant(o, l.after, dst, src, rev, message);
      if t.result.Ok? {
        var u := UpdateStep(o, t.after, dst, false);
        assert r.after == u.after;
        tail := [TransplantCmd(dst, src, rev, message), Cmd(dst, UpdateOp(false))];
      } else {
        assert r.after == t.after;
        tail := [TransplantCmd(dst, src, rev, message)];
      }
    } else {
      assert r.after == l.after;
    }
    AddedOf(l.after, r.after, tail);
    AddedSplit(s, l.after, r.after);
  }

  lemma TransplantRevisionsCommands(o: Oracle, repos: seq<Catalog.Entry>, s: State, src: string, dst: string,
                                    rev: Revset, message: Option<string>)
    ensures var r := TransplantRevisions(o, repos, s, src, dst, rev, message);
      AllTransplantRevisionsCmds(Added(s, r.after), src, dst, rev, message)
  {
    var p := OpenPair(o, repos, s, src, dst);
    OpenPairOrder(o, repos, s, src, dst);
    assert AllTransplantRevisionsCmds(Added(s, p.after), src, dst, rev, message);
    if p.result.Ok? {
      var r := LogThenTransplant(o, p.after, src, dst, rev, message);
      LogThenTransplantCommands(o, p.after, src, dst, rev, message);
      AddedSplit(s, p.after, r.after);
      AllTransplantRevisionsCmdsAppend(Added(s, p.after), Added(p.after, r.after), src, dst, rev, message);
    }
  }

  /** A successful `_transplant` opened the pair, logged the revisions in the source before the
      one transplant, then updated the destination; what arrives in the destination is a copy of
      each changeset that log answered and the destination did not already hold, each with the
      message when one is given. */
  lemma TransplantRevisionsSteps(o: Oracle, repos: seq<Catalog.Entry>, s: State, src: string, dst: string,
                                 rev: Revset, message: Option<string>)
    ensures var r := TransplantRevisions(o, repos, s, src, dst, rev, message); var cmds := Added(s, r.after);
      r.result.Ok? ==>
        var p := OpenPair(o, repos, s, src, dst);
        p.result.Ok?
        && var l := OptimisticLog(o, p.after, src, rev);
        l.result.Ok?
        && cmds == Added(s, p.after) + Added(p.after, l.after)
                   + [TransplantCmd(dst, src, rev, message), Cmd(dst, UpdateOp(false))]
        && [Cmd(src, LogOp(rev))] <= Added(p.after, l.after)
        && Resolve(l.after.copies[src], s.remotes, o.interpret, rev) == Some(l.result.value)
        && (src != dst ==>
              var news := Absent(l.result.value, NodeSet(p.after.copies[dst].history));
              var arrived := Transplanted(news, |l.after.trace|, FilterFor(message).0, FilterFor(message).1, o.mint);
              r.after.copies[dst].history == p.after.copies[dst].history + arrived
              && MessagesOf(arrived, news, message))
  {
    hide OpenPair;
    var r := TransplantRevisions(o, repos, s, src, dst, rev, message);
    if r.result.Ok? {
      var p := OpenPair(o, repos, s, src, dst);
      var l := OptimisticLog(o, p.after, src, rev);
      OptimisticLogCommands(o, p.after, src, rev);
      var t := RawTransplant(o, l.after, dst, src, rev, message);
      RawTransplantArrivals(o, l.after, dst, src, rev, message);
      var u := UpdateStep(o, t.after, dst, false);
      assert r.after == u.after;
      AddedOf(l.after, u.after, [TransplantCmd(dst, src, rev, message), Cmd(dst, UpdateOp(false))]);
      AddedSplit(s, p.after, l.after);
      AddedSplit(s, l.after, u.after);
    }
  }

  /** `transplant_commit` transplants exactly that revision, after logging it in the source, and
      never collapses, strips or pushes; with a message every changeset that arrives carries it. */
  lemma TransplantCommitIssues(o: Oracle, repos: seq<Catalog.Entry>, s: State, src: string, dst: string,
                               commit: string, message: Option<string>)
    ensures var r := TransplantCommit(o, repos, s, src, dst, commit, message); var cmds := Added(s, r.after);
      var t := TransplantCmd(dst, src, Expr(commit), message);
      NoPush(cmds)
      && (forall c :: c in cmds ==> !c.op.CollapseOp? && !c.op.StripOp? && (c.op.TransplantOp? ==> c == t))
      && (r.result.Ok? ==> Cmd(src, LogOp(Expr(commit))) in cmds && t in cmds)
      && (r.result.Ok? && src != dst && dst in s.copies ==>
            s.copies[dst].history <= r.after.copies[dst].history
            && (message.Some? ==> forall c :: c in r.after.copies[dst].history[|s.copies[dst].history|..] ==>
                                  c.message == message.value))
  {
    hide TransplantRevisions;
    var r := TransplantCommit(o, repos, s, src, dst, commit, message);
    TransplantRevisionsCommands(o, repos, s, src, dst, Expr(commit), message);
    TransplantRevisionsSteps(o, repos, s, src, dst, Expr(commit), message);
    if r.result.Ok? {
      var p := OpenPair(o, repos, s, src, dst);
      var l := OptimisticLog(o, p.after, src, Expr(commit));
      assert Added(p.after, l.after)[0] == Cmd(src, LogOp(Expr(commit)));
      assert Added(p.after, l.after)[0] in Added(s, r.after);
      if src != dst && dst in s.copies {
        var news := Absent(l.result.value, NodeSet(p.after.copies[dst].history));
        var arrived := Transplanted(news, |l.after.trace|, FilterFor(message).0, FilterFor(message).1, o.mint);
        var h := r.after.copies[dst].history;
        assert h == s.copies[dst].history + arrived;
        assert h[|s.copies[dst].history|..] == arrived;
      }
    }
  }

  /** The changeset `collapse` leaves at the tip carries the item's message, or without one keeps
      every collapsed message. */
  predicate CarriesMessage(tip: Commit, squashed: seq<Commit>, message: Option<string>)
  {
    if message.Some? then tip.message == message.value
    else forall i :: 0 <= i < |squashed| ==> Contains(tip.message, squashed[i].message)
  }

  /** The collapse step logs the descendants of the old tip's children and collapses them, with the
      item's message, exactly when that log reports at least two. */
  lemma CollapseArrivalsCommands(o: Oracle, s: State, dst: string, oldTip: Node, message: Option<string>)
    requires dst in s.copies
    ensures var r := CollapseArrivals(o, s, dst, oldTip, message); var cmds := Added(s, r.after);
      var rev := DescendantsOfChildren(oldTip);
      var collapse := Cmd(dst, CollapseOp(rev, message));
      var seen := LogAnswer(o, s, dst, rev);
      (cmds == [Cmd(dst, LogOp(rev))] || cmds == [Cmd(dst, LogOp(rev)), collapse])
      && (seen.Ok? ==> Resolve(s.copies[dst], s.remotes, o.interpret, rev) == Some(seen.value))
      && (collapse in cmds <==> seen.Ok? && |seen.value| >= 2)
      && (seen.Err? ==> r.result.Err?)
      && (seen.Ok? && |seen.value| < 2 ==> r.result.Ok? && r.after.copies == s.copies)
  {
    var rev := DescendantsOfChildren(oldTip);
    var l := LogStep(o, s, dst, rev);
    var r := CollapseArrivals(o, s, dst, oldTip, message);
    if l.result.Err? || |l.result.value| < 2 {
      assert r.after == l.after;
      AddedOf(s, r.after, [Cmd(dst, LogOp(rev))]);
    } else {
      var c := CollapseStep(o, l.after, dst, rev, message);
      assert r == Raised(c);
      AddedOf(s, r.after, [Cmd(dst, LogOp(rev)), Cmd(dst, CollapseOp(rev, message))]);
    }
  }

  /** A collapse that succeeds replaces what the log reported by one changeset at the tip,
      carrying the item's message or every collapsed message. */
  lemma CollapseArrivalsSquash(o: Oracle, s: State, dst: string, oldTip: Node, message: Option<string>)
    requires dst in s.copies
    ensures var r := CollapseArrivals(o, s, dst, oldTip, message);
      var rev := DescendantsOfChildren(oldTip);
      var seen := LogAnswer(o, s, dst, rev);
      r.result.Ok? && seen.Ok? && |seen.value| >= 2 ==>
        var h := r.after.copies[dst].history;
        h == Absent(s.copies[dst].history, NodeSet(seen.value)) + [Squash(seen.value, |s.trace| + 1, message, o.mint)]
        && CarriesMessage(h[|h| - 1], seen.value, message)
  {
    hide Squash, Absent, NodeSet;
    var rev := DescendantsOfChildren(oldTip);
    var l := LogStep(o, s, dst, rev);
    var r := CollapseArrivals(o, s, dst, oldTip, message);
    if r.result.Ok? && l.result.Ok? && |l.result.value| >= 2 {
      var c := CollapseStep(o, l.after, dst, rev, message);
      assert r == Raised(c);
      assert l.after.copies == s.copies;
      SquashKeepsMessages(l.result.value, |s.trace| + 1, message, o.mint);
    }
  }

  /** Every command of the several-changesets branch: the destination's id, a command of
      `_transplant` by node ids without a message, or the log and collapse of what arrived. */
  predicate CollapseBranchCmd(c: Cmd, src: string, dst: string, commits: seq<Commit>, rev: Revset,
                              message: Option<string>)
  {
    c == Cmd(dst, IdOp) || TransplantRevisionsCmd(c, src, dst, Nodes(NodesOf(commits)), None)
    || c == Cmd(dst, LogOp(rev)) || c == Cmd(dst, CollapseOp(rev, message))
  }

  predicate AllCollapseBranchCmds(cmds: seq<Cmd>, src: string, dst: string, commits: seq<Commit>, rev: Revset,
                                  message: Option<string>)
  {
    forall c :: c in cmds ==> CollapseBranchCmd(c, src, dst, commits, rev, message)
  }

  /** What the several-changesets branch's commands can and cannot be. */
  lemma CollapseBranchKinds(cmds: seq<Cmd>, src: string, dst: string, commits: seq<Commit>, rev: Revset,
                            message: Option<string>)
    requires AllCollapseBranchCmds(cmds, src, dst, commits, rev, message)
    ensures NoPush(cmds) && (forall c :: c in cmds ==> !c.op.StripOp?)
    ensures forall c :: c in cmds && c.op.TransplantOp? ==> c == TransplantCmd(dst, src, Nodes(NodesOf(commits)), None)
    ensures forall c :: c in cmds && c.op.CollapseOp? ==> c == Cmd(dst, CollapseOp(rev, message))
  {
  }

  lemma AllCollapseBranchCmdsAppend(a: seq<Cmd>, b: seq<Cmd>, src: string, dst: string, commits: seq<Commit>,
                                    rev: Revset, message: Option<string>)
    requires AllCollapseBranchCmds(a, src, dst, commits, rev, message)
    requires AllCollapseBranchCmds(b, src, dst, commits, rev, message)
    ensures AllCollapseBranchCmds(a + b, src, dst, commits, rev, message)
  {
  }

  /** Everything the several-changesets branch issues is one of its own commands. */
  lemma TransplantAndCollapseKinds(o: Oracle, repos: seq<Catalog.Entry>, s: State, src: string, dst: string,
                                   commits: seq<Commit>, message: Option<string>)
    requires dst in s.copies
    ensures var r := TransplantAndCollapse(o, repos, s, src, dst, commits, message);
      AllCollapseBranchCmds(Added(s, r.after), src, dst, commits, DescendantsOfChildren(Tip(s.copies[dst])), message)
  {
    hide TransplantRevisions, CollapseArrivals;
    var id := IdStep(o, s, dst);
    var r := TransplantAndCollapse(o, repos, s, src, dst, commits, message);
    var rev := DescendantsOfChildren(Tip(s.copies[dst]));
    AddedOf(s, id.after, [Cmd(dst, IdOp)]);
    assert AllCollapseBranchCmds(Added(s, id.after), src, dst, commits, rev, message);
    if id.result.Ok? {
      var tr := TransplantRevisions(o, repos, id.after, src, dst, Nodes(NodesOf(commits)), None);
      TransplantRevisionsCommands(o, repos, id.after, src, dst, Nodes(NodesOf(commits)), None);
      assert AllCollapseBranchCmds(Added(id.after, tr.after), src, dst, commits, rev, message);
      AddedSplit(s, id.after, tr.after);
      AllCollapseBranchCmdsAppend(Added(s, id.after), Added(id.after, tr.after), src, dst, commits, rev, message);
      if tr.result.Ok? {
        var ca := CollapseArrivals(o, tr.after, dst, id.result.value, message);
        assert r == ca;
        CollapseArrivalsCommands(o, tr.after, dst, id.result.value, message);
        assert AllCollapseBranchCmds(Added(tr.after, ca.after), src, dst, commits, rev, message);
        AddedSplit(s, tr.after, ca.after);
        AllCollapseBranchCmdsAppend(Added(s, tr.after), Added(tr.after, ca.after), src, dst, commits, rev, message);
      } else {
        assert r == tr;
      }
    } else {
      assert r.after == id.after;
    }
  }

  /** The several-changesets branch reads the destination tip first; after that it issues only
      `_transplant` by node ids and without a message, and the log and collapse of what arrived
      after that tip; it neither pushes nor strips. */
  lemma TransplantAndCollapseCommands(o: Oracle, repos: seq<Catalog.Entry>, s: State, src: string, dst: string,
                                      commits: seq<Commit>, message: Option<string>)
    requires dst in s.copies
    ensures var r := TransplantAndCollapse(o, repos, s, src, dst, commits, message); var cmds := Added(s, r.after);
      var rev := DescendantsOfChildren(Tip(s.copies[dst]));
      |cmds| > 0 && cmds[0] == Cmd(dst, IdOp)
      && NoPush(cmds) && (forall c :: c in cmds ==> !c.op.StripOp?)
      && (forall c :: c in cmds && c.op.TransplantOp? ==> c == TransplantCmd(dst, src, Nodes(NodesOf(commits)), None))
      && (forall c :: c in cmds && c.op.CollapseOp? ==> c == Cmd(dst, CollapseOp(rev, message)))
  {
    var id := IdStep(o, s, dst);
    var r := TransplantAndCollapse(o, repos, s, src, dst, commits, message);
    AddedOf(s, id.after, [Cmd(dst, IdOp)]);
    AddedSplit(s, id.after, r.after);
    TransplantAndCollapseKinds(o, repos, s, src, dst, commits, message);
    CollapseBranchKinds(Added(s, r.after), src, dst, commits, DescendantsOfChildren(Tip(s.copies[dst])), message);
  }

  /** A successful several-changesets branch issued the transplant by node ids; it collapsed
      exactly when the id read and `_transplant` succeeded and the log after them reported at
      least two changesets. */
  lemma TransplantAndCollapseIssues(o: Oracle, repos: seq<Catalog.Entry>, s: State, src: string, dst: string,
                                    commits: seq<Commit>, message: Option<string>)
    requires dst in s.copies
    ensures var r := TransplantAndCollapse(o, repos, s, src, dst, commits, message); var cmds := Added(s, r.after);
      var rev := DescendantsOfChildren(Tip(s.copies[dst]));
      var t := TransplantRevisions(o, repos, Issue(s, Cmd(dst, IdOp)), src, dst, Nodes(NodesOf(commits)), None);
      (r.result.Ok? ==> TransplantCmd(dst, src, Nodes(NodesOf(commits)), None) in cmds)
      && (Cmd(dst, CollapseOp(rev, message)) in cmds <==>
            NextFault(o, s).None? && t.result.Ok?
            && var seen := LogAnswer(o, t.after, dst, rev); seen.Ok? && |seen.value| >= 2)
  {
    hide TransplantRevisions, CollapseArrivals;
    var id := IdStep(o, s, dst);
    var r := TransplantAndCollapse(o, repos, s, src, dst, commits, message);
    var rev := DescendantsOfChildren(Tip(s.copies[dst]));
    var collapse := Cmd(dst, CollapseOp(rev, message));
    AddedOf(s, id.after, [Cmd(dst, IdOp)]);
    if id.result.Ok? {
      var tr := TransplantRevisions(o, repos, id.after, src, dst, Nodes(NodesOf(commits)), None);
      TransplantRevisionsCommands(o, repos, id.after, src, dst, Nodes(NodesOf(commits)), None);
      AddedSplit(s, id.after, tr.after);
      assert collapse !in Added(s, tr.after);
      if tr.result.Ok? {
        TransplantRevisionsSteps(o, repos, id.after, src, dst, Nodes(NodesOf(commits)), None);
        assert TransplantCmd(dst, src, Nodes(NodesOf(commits)), None) in Added(id.after, tr.after);
        var ca := CollapseArrivals(o, tr.after, dst, id.result.value, message);
        assert r == ca;
        CollapseArrivalsCommands(o, tr.after, dst, id.result.value, message);
        AddedSplit(s, tr.after, ca.after);
      } else {
        assert r == tr;
      }
    } else {
      assert r.after == id.after;
    }
  }

  /** A successful several-changesets branch that collapsed leaves one changeset at the tip with
      the item's message, or with every collapsed message. */
  lemma TransplantAndCollapseSquash(o: Oracle, repos: seq<Catalog.Entry>, s: State, src: string, dst: string,
                                    commits: seq<Commit>, message: Option<string>)
    requires dst in s.copies
    ensures var r := TransplantAndCollapse(o, repos, s, src, dst, commits, message); var cmds := Added(s, r.after);
      var rev := DescendantsOfChildren(Tip(s.copies[dst]));
      var t := TransplantRevisions(o, repos, Issue(s, Cmd(dst, IdOp)), src, dst, Nodes(NodesOf(commits)), None);
      r.result.Ok? && Cmd(dst, CollapseOp(rev, message)) in cmds ==>
        t.result.Ok? && LogAnswer(o, t.after, dst, rev).Ok?
        && var h := r.after.copies[dst].history;
        |h| > 0 && CarriesMessage(h[|h| - 1], LogAnswer(o, t.after, dst, rev).value, message)
  {
    TransplantAndCollapseIssues(o, repos, s, src, dst, commits, message);
    var r := TransplantAndCollapse(o, repos, s, src, dst, commits, message);
    var rev := DescendantsOfChildren(Tip(s.copies[dst]));
    if r.result.Ok? && Cmd(dst, CollapseOp(rev, message)) in Added(s, r.after) {
      var id := IdStep(o, s, dst);
      var tr := TransplantRevisions(o, repos, id.after, src, dst, Nodes(NodesOf(commits)), None);
      assert r == CollapseArrivals(o, tr.after, dst, id.result.value, message);
      CollapseArrivalsSquash(o, tr.after, dst, id.result.value, message);
    }
  }

  /** The tip of `h`, when there is one, is a real changeset that occurs nowhere else in `h`. */
  predicate TipOnce(h: seq<Commit>)
  {
    h == [] || (h[|h| - 1].node != NullNode && forall j :: 0 <= j < |h| - 1 ==> h[j].node != h[|h| - 1].node)
  }

  /** What the children of the old tip descend to, once `more` follows a history whose tip occurs once. */
  lemma DescendantsAfterTip(wc: WorkingCopy, h: seq<Commit>, more: seq<Commit>, remotes: map<string, seq<Commit>>,
                            interpret: (seq<Commit>, string) -> Option<seq<Commit>>)
    requires TipOnce(h) && wc.history == h + more
    ensures Resolve(wc, remotes, interpret, DescendantsOfChildren(Tip(wc.(history := h)))) == Some(more)
  {
    if h == [] {
      assert wc.history == more;
    } else {
      var n := h[|h| - 1].node;
      assert Tip(wc.(history := h)) == n;
      assert wc.history[|h| - 1].node == n;
      assert n in NodeSet(wc.history);
      var i := IndexOf(wc.history, n).value;
      assert i == |h| - 1;
      assert wc.history[i + 1..] == more;
    }
  }

  /** When the several-changesets branch brings in at most one new changeset (the others were
      already in the destination), nothing is collapsed: the destination stays as the transplant
      without a message left it, so the item's message is not applied to it. */
  lemma TransplantAndCollapseSingleArrival(o: Oracle, repos: seq<Catalog.Entry>, s: State, src: string, dst: string,
                                           commits: seq<Commit>, message: Option<string>)
    requires dst in s.copies && src != dst && TipOnce(s.copies[dst].history)
    ensures var r := TransplantAndCollapse(o, repos, s, src, dst, commits, message);
      var rev := DescendantsOfChildren(Tip(s.copies[dst]));
      var t := TransplantRevisions(o, repos, Issue(s, Cmd(dst, IdOp)), src, dst, Nodes(NodesOf(commits)), None);
      r.result.Ok? && t.result.Ok? && |t.after.copies[dst].history| <= |s.copies[dst].history| + 1 ==>
        Cmd(dst, CollapseOp(rev, message)) !in Added(s, r.after) && r.after.copies == t.after.copies
  {
    hide TransplantRevisions, CollapseArrivals, OptimisticLog;
    var r := TransplantAndCollapse(o, repos, s, src, dst, commits, message);
    var id := IdStep(o, s, dst);
    var t := TransplantRevisions(o, repos, id.after, src, dst, Nodes(NodesOf(commits)), None);
    var h := s.copies[dst].history;
    TransplantAndCollapseIssues(o, repos, s, src, dst, commits, message);
    if r.result.Ok? && t.result.Ok? && |t.after.copies[dst].history| <= |h| + 1 {
      assert id.result.Ok?;
      TransplantRevisionsSteps(o, repos, id.after, src, dst, Nodes(NodesOf(commits)), None);
      var p := OpenPair(o, repos, id.after, src, dst);
      assert p.after.copies[dst].history == h;
      var more := t.after.copies[dst].history[|h|..];
      DescendantsAfterTip(t.after.copies[dst], h, more, t.after.remotes, o.interpret);
      assert r == CollapseArrivals(o, t.after, dst, id.result.value, message);
      CollapseArrivalsCommands(o, t.after, dst, id.result.value, message);
    }
  }

  // ---------------------------------------------------------------------------------------
  // Revision sets

  /** `transplant_revset` with both clones open logs the revset in the source first; the ceiling
      and the empty selection are decided on what that log resolved, before anything is
      rewritten; an error of the log is the answer. */
  lemma RevsetIntoOpenCloneSteps(o: Oracle, repos: seq<Catalog.Entry>, s: State, src: string, dst: string,
                                 revset: string, message: Option<string>)
    requires src in s.copies && dst in s.copies
    ensures var r := RevsetIntoOpenClone(o, repos, s, src, dst, revset, message); var cmds := Added(s, r.after);
      var l := OptimisticLog(o, s, src, Expr(revset)); var logged := Added(s, l.after);
      |logged| > 0 && logged[0] == Cmd(src, LogOp(Expr(revset))) && logged <= cmds
      && NoRewrite(logged) && NoPush(logged)
      && (l.result.Ok? ==> Resolve(l.after.copies[src], s.remotes, o.interpret, Expr(revset)) == Some(l.result.value))
      && (src != dst ==> l.after.copies[dst] == s.copies[dst])
      && (l.result.Err? ==> r.result == Err(l.result.error) && r.after == l.after)
      && (l.result.Ok? && |l.result.value| > MaxCommits ==>
            r.result == Err(TooManyCommits(TooManyCommitsMessage(|l.result.value|, MaxCommits))) && r.after == l.after)
      && (l.result.Ok? && |l.result.value| == 0 ==> r.result.Ok? && r.after == l.after)
      && (l.result.Err? || |l.result.value| == 0 || |l.result.value| > MaxCommits ==> cmds == logged)
      && (r.result.Err? && r.result.error.TooManyCommits? <==> l.result.Ok? && |l.result.value| > MaxCommits)
  {
    hide OptimisticLog, TransplantRevisions, TransplantAndCollapse, Added;
    var l := OptimisticLog(o, s, src, Expr(revset));
    var r := RevsetIntoOpenClone(o, repos, s, src, dst, revset, message);
    OptimisticLogCommands(o, s, src, Expr(revset));
    AddedSplit(s, l.after, r.after);
    if l.result.Err? || |l.result.value| > MaxCommits || |l.result.value| == 0 {
      assert r.after == l.after;
    }
  }

  /** No push, and the only commands that rewrite history (transplant, collapse, strip) are
      among `allowed`. */
  predicate OnlyRewrites(cmds: seq<Cmd>, allowed: set<Cmd>)
  {
    forall c :: c in cmds ==> !c.op.PushOp? && (c.op.TransplantOp? || c.op.CollapseOp? || c.op.StripOp? ==> c in allowed)
  }

  lemma OnlyRewritesAppend(a: seq<Cmd>, b: seq<Cmd>, allowed: set<Cmd>)
    requires OnlyRewrites(a, allowed) && OnlyRewrites(b, allowed)
    ensures OnlyRewrites(a + b, allowed)
  {
  }

  /** `_transplant` rewrites history only by its one transplant, and issued it when it succeeds. */
  lemma TransplantRevisionsRewrites(o: Oracle, repos: seq<Catalog.Entry>, s: State, src: string, dst: string,
                                    rev: Revset, message: Option<string>)
    ensures var r := TransplantRevisions(o, repos, s, src, dst, rev, message);
      var t := TransplantCmd(dst, src, rev, message);
      OnlyRewrites(Added(s, r.after), {t}) && (r.result.Ok? ==> t in Added(s, r.after))
  {
    TransplantRevisionsCommands(o, repos, s, src, dst, rev, message);
    TransplantRevisionsSteps(o, repos, s, src, dst, rev, message);
  }

  /** The several-changesets branch rewrites history only by the transplant by node ids and the
      collapse of what arrived after the tip it read first; it issued the transplant when it
      succeeds, and a successful collapse with a message leaves it on the tip. */
  lemma TransplantAndCollapseRewrites(o: Oracle, repos: seq<Catalog.Entry>, s: State, src: string, dst: string,
                                      commits: seq<Commit>, message: Option<string>)
    requires dst in s.copies
    ensures var r := TransplantAndCollapse(o, repos, s, src, dst, commits, message); var cmds := Added(s, r.after);
      var nodes := TransplantCmd(dst, src, Nodes(NodesOf(commits)), None);
      var collapse := Cmd(dst, CollapseOp(DescendantsOfChildren(Tip(s.copies[dst])), message));
      OnlyRewrites(cmds, {nodes, collapse})
      && (r.result.Ok? ==> nodes in cmds)
      && (r.result.Ok? && collapse in cmds && message.Some? ==>
            var h := r.after.copies[dst].history; |h| > 0 && h[|h| - 1].message == message.value)
  {
    TransplantAndCollapseCommands(o, repos, s, src, dst, commits, message);
    TransplantAndCollapseIssues(o, repos, s, src, dst, commits, message);
    TransplantAndCollapseSquash(o, repos, s, src, dst, commits, message);
  }

  /** The log that pulls once never pushes or rewrites. */
  lemma OptimisticLogRewritesNothing(o: Oracle, s: State, name: string, rev: Revset, allowed: set<Cmd>)
    requires name in s.copies
    ensures OnlyRewrites(Added(s, OptimisticLog(o, s, name, rev).after), allowed)
  {
    OptimisticLogPullsOnce(o, s, name, rev);
  }

  /** One changeset goes by the caller's revset, with the item's message, and is never collapsed;
      success means that transplant was issued. */
  lemma RevsetIntoOpenCloneSingle(o: Oracle, repos: seq<Catalog.Entry>, s: State, src: string, dst: string,
                                  revset: string, message: Option<string>)
    requires src in s.copies && dst in s.copies
    ensures var r := RevsetIntoOpenClone(o, repos, s, src, dst, revset, message); var cmds := Added(s, r.after);
      var l := OptimisticLog(o, s, src, Expr(revset));
      var t := TransplantCmd(dst, src, Expr(revset), message);
      l.result.Ok? && |l.result.value| == 1 ==>
        OnlyRewrites(cmds, {t}) && (r.result.Ok? ==> t in cmds)
  {
    hide OptimisticLog, TransplantRevisions, TransplantAndCollapse;
    var l := OptimisticLog(o, s, src, Expr(revset));
    var r := RevsetIntoOpenClone(o, repos, s, src, dst, revset, message);
    var t := TransplantCmd(dst, src, Expr(revset), message);
    if l.result.Ok? && |l.result.value| == 1 {
      var tr := TransplantRevisions(o, repos, l.after, src, dst, Expr(revset), message);
      assert r == tr;
      OptimisticLogRewritesNothing(o, s, src, Expr(revset), {t});
      TransplantRevisionsRewrites(o, repos, l.after, src, dst, Expr(revset), message);
      AddedSplit(s, l.after, tr.after);
      OnlyRewritesAppend(Added(s, l.after), Added(l.after, tr.after), {t});
    }
  }

  /** Several changesets go by the node ids the source's log resolved, without a message, and
      what is collapsed is what arrived after the destination's tip as it was when the log
      finished (the tip before the request, when source and destination differ). */
  lemma RevsetIntoOpenCloneMany(o: Oracle, repos: seq<Catalog.Entry>, s: State, src: string, dst: string,
                                revset: string, message: Option<string>)
    requires src in s.copies && dst in s.copies
    ensures var r := RevsetIntoOpenClone(o, repos, s, src, dst, revset, message); var cmds := Added(s, r.after);
      var l := OptimisticLog(o, s, src, Expr(revset));
      l.result.Ok? && 2 <= |l.result.value| <= MaxCommits ==>
        var nodes := TransplantCmd(dst, src, Nodes(NodesOf(l.result.value)), None);
        var collapse := Cmd(dst, CollapseOp(DescendantsOfChildren(Tip(l.after.copies[dst])), message));
        OnlyRewrites(cmds, {nodes, collapse}) && (r.result.Ok? ==> nodes in cmds)
  {
    hide OptimisticLog, TransplantRevisions, TransplantAndCollapse;
    var l := OptimisticLog(o, s, src, Expr(revset));
    var r := RevsetIntoOpenClone(o, repos, s, src, dst, revset, message);
    if l.result.Ok? && 2 <= |l.result.value| <= MaxCommits {
      var nodes := TransplantCmd(dst, src, Nodes(NodesOf(l.result.value)), None);
      var collapse := Cmd(dst, CollapseOp(DescendantsOfChildren(Tip(l.after.copies[dst])), message));
      var tc := TransplantAndCollapse(o, repos, l.after, src, dst, l.result.value, message);
      assert r == tc;
      OptimisticLogRewritesNothing(o, s, src, Expr(revset), {nodes, collapse});
      TransplantAndCollapseRewrites(o, repos, l.after, src, dst, l.result.value, message);
      AddedSplit(s, l.after, tc.after);
      OnlyRewritesAppend(Added(s, l.after), Added(l.after, tc.after), {nodes, collapse});
    }
  }

  /** When several changesets were collapsed with a message and the request succeeded, the
      destination's tip carries that message. */
  lemma RevsetIntoOpenCloneCollapsed(o: Oracle, repos: seq<Catalog.Entry>, s: State, src: string, dst: string,
                                     revset: string, message: Option<string>)
    requires src in s.copies && dst in s.copies
    ensures var r := RevsetIntoOpenClone(o, repos, s, src, dst, revset, message);
      var l := OptimisticLog(o, s, src, Expr(revset));
      var collapse := Cmd(dst, CollapseOp(DescendantsOfChildren(Tip(l.after.copies[dst])), message));
      l.result.Ok? && 2 <= |l.result.value| <= MaxCommits && r.result.Ok? && collapse in Added(s, r.after)
      && message.Some? ==>
        var h := r.after.copies[dst].history; |h| > 0 && h[|h| - 1].message == message.value
  {
    hide OptimisticLog, TransplantRevisions, TransplantAndCollapse;
    var l := OptimisticLog(o, s, src, Expr(revset));
    var r := RevsetIntoOpenClone(o, repos, s, src, dst, revset, message);
    var collapse := Cmd(dst, CollapseOp(DescendantsOfChildren(Tip(l.after.copies[dst])), message));
    if l.result.Ok? && 2 <= |l.result.value| <= MaxCommits && r.result.Ok? && collapse in Added(s, r.after) {
      var tc := TransplantAndCollapse(o, repos, l.after, src, dst, l.result.value, message);
      assert r == tc;
      OptimisticLogRewritesNothing(o, s, src, Expr(revset), {});
      AddedSplit(s, l.after, tc.after);
      assert collapse in Added(l.after, tc.after);
      TransplantAndCollapseRewrites(o, repos, l.after, src, dst, l.result.value, message);
    }
  }

  /** `transplant_revset` opens the source, then the destination, and logs the revset in the
      source right after; a failed opening, the ceiling and an empty selection rewrite nothing,
      and an empty selection succeeds with the destination as the opening left it, which for a
      destination already cloned is its history before the call. */
  lemma TransplantRevsetSteps(o: Oracle, repos: seq<Catalog.Entry>, s: State, src: string, dst: string,
                              revset: string, message: Option<string>)
    ensures var r := TransplantRevset(o, repos, s, src, dst, revset, message); var cmds := Added(s, r.after);
      var p := OpenPair(o, repos, s, src, dst); var opening := Added(s, p.after);
      opening <= cmds
      && (p.result.Err? ==> cmds == opening && NoRewrite(cmds) && NoPush(cmds))
      && (p.result.Ok? ==>
            |cmds| > |opening| && cmds[|opening|] == Cmd(src, LogOp(Expr(revset)))
            && (r.result.Err? && r.result.error.TooManyCommits? ==> NoRewrite(cmds) && NoPush(cmds))
            && var l := OptimisticLog(o, p.after, src, Expr(revset));
            (l.result.Ok? && |l.result.value| == 0 ==>
               r.result.Ok? && NoRewrite(cmds) && NoPush(cmds)
               && (src != dst ==> r.after.copies[dst] == p.after.copies[dst]
                                  && (dst in s.copies ==> r.after.copies[dst].history == s.copies[dst].history))))
  {
    var p := OpenPair(o, repos, s, src, dst);
    var r := TransplantRevset(o, repos, s, src, dst, revset, message);
    OpenPairOrder(o, repos, s, src, dst);
    if p.result.Ok? {
      assert r == RevsetIntoOpenClone(o, repos, p.after, src, dst, revset, message);
      RevsetIntoOpenCloneSteps(o, repos, p.after, src, dst, revset, message);
      AddedSplit(s, p.after, r.after);
    } else {
      assert r.after == p.after;
    }
  }

  lemma OnlyRewritesNeverStrips(cmds: seq<Cmd>, allowed: set<Cmd>)
    requires OnlyRewrites(cmds, allowed) && forall a :: a in allowed ==> !a.op.StripOp?
    ensures NoPush(cmds) && forall c :: c in cmds ==> !c.op.StripOp?
  {
  }

  /** `transplant_revset` with both clones open never pushes or strips. */
  lemma RevsetIntoOpenCloneNeverStrips(o: Oracle, repos: seq<Catalog.Entry>, s: State, src: string, dst: string,
                                       revset: string, message: Option<string>)
    requires src in s.copies && dst in s.copies
    ensures var r := RevsetIntoOpenClone(o, repos, s, src, dst, revset, message); var cmds := Added(s, r.after);
      NoPush(cmds) && forall c :: c in cmds ==> !c.op.StripOp?
  {
    hide OptimisticLog, TransplantRevisions, TransplantAndCollapse;
    var l := OptimisticLog(o, s, src, Expr(revset));
    var r := RevsetIntoOpenClone(o, repos, s, src, dst, revset, message);
    var cmds := Added(s, r.after);
    if l.result.Err? || |l.result.value| > MaxCommits || |l.result.value| == 0 {
      assert r.after == l.after;
      OptimisticLogRewritesNothing(o, s, src, Expr(revset), {});
      OnlyRewritesNeverStrips(cmds, {});
    } else if |l.result.value| == 1 {
      RevsetIntoOpenCloneSingle(o, repos, s, src, dst, revset, message);
      OnlyRewritesNeverStrips(cmds, {TransplantCmd(dst, src, Expr(revset), message)});
    } else {
      RevsetIntoOpenCloneMany(o, repos, s, src, dst, revset, message);
      OnlyRewritesNeverStrips(cmds, {TransplantCmd(dst, src, Nodes(NodesOf(l.result.value)), None),
                                     Cmd(dst, CollapseOp(DescendantsOfChildren(Tip(l.after.copies[dst])), message))});
    }
  }

  /** With both clones open, a successful `transplant_revset` resolved the revset within the
      ceiling and transplanted by the caller's revset for one changeset, by node ids for several,
      and rewrote nothing for none. */
  lemma RevsetIntoOpenCloneIssues(o: Oracle, repos: seq<Catalog.Entry>, s: State, src: string, dst: string,
                                  revset: string, message: Option<string>)
    requires src in s.copies && dst in s.copies
    ensures var r := RevsetIntoOpenClone(o, repos, s, src, dst, revset, message); var cmds := Added(s, r.after);
      var l := OptimisticLog(o, s, src, Expr(revset));
      r.result.Ok? ==>
        l.result.Ok? && |l.result.value| <= MaxCommits
        && (|l.result.value| == 0 ==> NoRewrite(cmds))
        && (|l.result.value| == 1 ==> TransplantCmd(dst, src, Expr(revset), message) in cmds)
        && (|l.result.value| >= 2 ==> TransplantCmd(dst, src, Nodes(NodesOf(l.result.value)), None) in cmds)
  {
    RevsetIntoOpenCloneSteps(o, repos, s, src, dst, revset, message);
    RevsetIntoOpenCloneSingle(o, repos, s, src, dst, revset, message);
    RevsetIntoOpenCloneMany(o, repos, s, src, dst, revset, message);
  }

  /** `transplant_revset` never pushes or strips. */
  lemma TransplantRevsetNeverStrips(o: Oracle, repos: seq<Catalog.Entry>, s: State, src: string, dst: string,
                                    revset: string, message: Option<string>)
    ensures var r := TransplantRevset(o, repos, s, src, dst, revset, message); var cmds := Added(s, r.after);
      NoPush(cmds) && forall c :: c in cmds ==> !c.op.StripOp?
  {
    var p := OpenPair(o, repos, s, src, dst);
    var r := TransplantRevset(o, repos, s, src, dst, revset, message);
    OpenPairOrder(o, repos, s, src, dst);
    if p.result.Ok? {
      var q := RevsetIntoOpenClone(o, repos, p.after, src, dst, revset, message);
      assert r == q;
      RevsetIntoOpenCloneNeverStrips(o, repos, p.after, src, dst, revset, message);
      AddedSplit(s, p.after, q.after);
    } else {
      assert r.after == p.after;
    }
  }

  /** A successful `transplant_revset` opened both clones and resolved the revset in the source
      within the ceiling; it transplanted by the caller's revset for one changeset, by node ids for
      several, and rewrote nothing for none. */
  lemma TransplantRevsetIssues(o: Oracle, repos: seq<Catalog.Entry>, s: State, src: string, dst: string,
                               revset: string, message: Option<string>)
    ensures var r := TransplantRevset(o, repos, s, src, dst, revset, message); var cmds := Added(s, r.after);
      var p := OpenPair(o, repos, s, src, dst);
      r.result.Ok? ==>
        p.result.Ok?
        && var l := OptimisticLog(o, p.after, src, Expr(revset));
        l.result.Ok? && |l.result.value| <= MaxCommits
        && (|l.result.value| == 0 ==> NoRewrite(cmds))
        && (|l.result.value| == 1 ==> TransplantCmd(dst, src, Expr(revset), message) in cmds)
        && (|l.result.value| >= 2 ==> TransplantCmd(dst, src, Nodes(NodesOf(l.result.value)), None) in cmds)
  {
    var p := OpenPair(o, repos, s, src, dst);
    var r := TransplantRevset(o, repos, s, src, dst, revset, message);
    if r.result.Ok? {
      OpenPairOrder(o, repos, s, src, dst);
      var q := RevsetIntoOpenClone(o, repos, p.after, src, dst, revset, message);
      assert r == q;
      RevsetIntoOpenCloneIssues(o, repos, p.after, src, dst, revset, message);
      AddedSplit(s, p.after, q.after);
    }
  }

  // ---------------------------------------------------------------------------------------
  // Items

  /** A `commit` item transplants that revision (and wins over a `revset` key), a `revset` item
      transplants what the revset resolves to; an item with neither fails without a command.
      Success of an item with a key means the source's log of it was issued, and for a commit
      the transplant. No item pushes or strips. */
  lemma TransplantItemIssues(o: Oracle, repos: seq<Catalog.Entry>, s: State, src: string, dst: string,
                             item: Item, dialect: Dialect)
    ensures var r := TransplantItem(o, repos, s, src, dst, item, dialect); var cmds := Added(s, r.after);
      NoPush(cmds) && (forall c :: c in cmds ==> !c.op.StripOp?)
      && (item.commit.Some? ==>
            var t := TransplantCmd(dst, src, Expr(item.commit.value), item.message);
            (forall c :: c in cmds && c.op.TransplantOp? ==> c == t)
            && (r.result.Ok? ==> Cmd(src, LogOp(Expr(item.commit.value))) in cmds && t in cmds))
      && (item.commit.None? && item.revset.Some? && r.result.Ok? ==>
            Cmd(src, LogOp(Expr(item.revset.value))) in cmds)
      && (item.commit.None? && item.revset.None? ==>
            r.result == Err(UnknownItemError(item, dialect)) && cmds == [])
  {
    var r := TransplantItem(o, repos, s, src, dst, item, dialect);
    if item.commit.Some? {
      TransplantCommitIssues(o, repos, s, src, dst, item.commit.value, item.message);
    } else if item.revset.Some? {
      TransplantRevsetNeverStrips(o, repos, s, src, dst, item.revset.value, item.message);
      TransplantRevsetSteps(o, repos, s, src, dst, item.revset.value, item.message);
      if r.result.Ok? {
        var p := OpenPair(o, repos, s, src, dst);
        assert Added(s, r.after)[|Added(s, p.after)|] in Added(s, r.after);
      }
    } else {
      AddedOf(s, r.after, []);
    }
  }

  /** The loop over the items never pushes or strips. */
  lemma {:induction false} ApplyItemsNeverPushes(o: Oracle, repos: seq<Catalog.Entry>, s: State, src: string,
                                                 dst: string, items: seq<Item>, dialect: Dialect)
    ensures var cmds := Added(s, ApplyItems(o, repos, s, src, dst, items, dialect).after);
      NoPush(cmds) && forall c :: c in cmds ==> !c.op.StripOp?
    decreases |items|
  {
    if items == [] {
      AddedOf(s, s, []);
    } else {
      var t := TransplantItem(o, repos, s, src, dst, items[0], dialect);
      TransplantItemIssues(o, repos, s, src, dst, items[0], dialect);
      if t.result.Ok? {
        var rest := ApplyItems(o, repos, t.after, src, dst, items[1..], dialect);
        ApplyItemsNeverPushes(o, repos, t.after, src, dst, items[1..], dialect);
        AddedSplit(s, t.after, rest.after);
      }
    }
  }

  /** The loop stops at its first failing item: the items before it all succeeded, and the error
      reported is that item's own error, raised from where they left the clones. */
  lemma {:induction false} ApplyItemsStopsAtFailure(o: Oracle, repos: seq<Catalog.Entry>, s: State, src: string,
                                                    dst: string, items: seq<Item>, dialect: Dialect)
    ensures var p := ApplyItems(o, repos, s, src, dst, items, dialect);
      p.failure.Some? ==>
        var before := ApplyItems(o, repos, s, src, dst, items[..p.applied], dialect);
        before.failure.None?
        && var t := TransplantItem(o, repos, before.after, src, dst, items[p.applied], dialect);
        t.result == Err(p.failure.value) && t.after == p.after
    decreases |items|
  {
    hide TransplantItem;
    var p := ApplyItems(o, repos, s, src, dst, items, dialect);
    if items != [] && p.failure.Some? {
      var t := TransplantItem(o, repos, s, src, dst, items[0], dialect);
      if t.result.Err? {
        assert items[..p.applied] == [];
      } else {
        var rest := ApplyItems(o, repos, t.after, src, dst, items[1..], dialect);
        ApplyItemsStopsAtFailure(o, repos, t.after, src, dst, items[1..], dialect);
        assert p == Progress(rest.applied + 1, rest.failure, rest.after);
        PrefixOfTail(items, p.applied);
        var before := ApplyItems(o, repos, t.after, src, dst, items[1..][..rest.applied], dialect);
        assert ApplyItems(o, repos, s, src, dst, items[..p.applied], dialect)
               == Progress(before.applied + 1, before.failure, before.after);
        assert items[p.applied] == items[1..][rest.applied];
      }
    }
  }

  /** When every item succeeded, every `commit` item's own transplant was issued. */
  lemma {:induction false} ApplyItemsIssuesEveryCommit(o: Oracle, repos: seq<Catalog.Entry>, s: State, src: string,
                                                       dst: string, items: seq<Item>, dialect: Dialect)
    ensures var p := ApplyItems(o, repos, s, src, dst, items, dialect);
      p.failure.None? ==>
        forall i :: 0 <= i < |items| && items[i].commit.Some? ==>
          TransplantCmd(dst, src, Expr(items[i].commit.value), items[i].message) in Added(s, p.after)
    decreases |items|
  {
    hide TransplantItem;
    var p := ApplyItems(o, repos, s, src, dst, items, dialect);
    if items != [] && p.failure.None? {
      var t := TransplantItem(o, repos, s, src, dst, items[0], dialect);
      TransplantItemIssues(o, repos, s, src, dst, items[0], dialect);
      var rest := ApplyItems(o, repos, t.after, src, dst, items[1..], dialect);
      ApplyItemsIssuesEveryCommit(o, repos, t.after, src, dst, items[1..], dialect);
      AddedSplit(s, t.after, rest.after);
      forall i | 0 <= i < |items| && items[i].commit.Some?
        ensures TransplantCmd(dst, src, Expr(items[i].commit.value), items[i].message) in Added(s, p.after)
      {
        if i > 0 {
          assert items[i] == items[1..][i - 1];
        }
      }
    }
  }

  // ---------------------------------------------------------------------------------------
  // Pushing and the whole request

  /** The finish pushes the destination exactly once and then reads its tip; it changes no
      clone; on success every local changeset of the destination is in its default remote and
      the answer is the destination's tip. */
  lemma PushAndTipOutcome(o: Oracle, s: State, dst: string)
    requires dst in s.copies
    ensures var r := PushAndTip(o, s, dst); var cmds := Added(s, r.after); var wc := s.copies[dst];
      (cmds == [Cmd(dst, PushOp)] || cmds == [Cmd(dst, PushOp), Cmd(dst, IdOp)])
      && Pushes(cmds) == 1
      && (r.result.Err? ==> r.result.error.Backend?)
      && (r.result.Ok? ==>
            r.result.value == Tip(wc)
            && wc.defaultPath.Some? && wc.defaultPath.value in r.after.remotes
            && forall c :: c in wc.history ==> c.node in NodeSet(r.after.remotes[wc.defaultPath.value]))
  {
    var p := PushStep(o, s, dst);
    var r := PushAndTip(o, s, dst);
    var wc := s.copies[dst];
    assert [Cmd(dst, PushOp)][..0] == [];
    assert Pushes([Cmd(dst, PushOp)]) == 1;
    assert [Cmd(dst, PushOp), Cmd(dst, IdOp)][..1] == [Cmd(dst, PushOp)];
    assert Pushes([Cmd(dst, PushOp), Cmd(dst, IdOp)]) == 1;
    if p.result.Err? {
      assert r.after == p.after;
      AddedOf(s, r.after, [Cmd(dst, PushOp)]);
    } else {
      var id := IdStep(o, p.after, dst);
      assert r == Raised(id);
      AddedOf(s, r.after, [Cmd(dst, PushOp), Cmd(dst, IdOp)]);
      var theirs := s.remotes[wc.defaultPath.value];
      forall c | c in wc.history
        ensures c.node in NodeSet(r.after.remotes[wc.defaultPath.value])
      {
        if c.node !in NodeSet(theirs) {
          assert c in Absent(wc.history, NodeSet(theirs));
        }
      }
    }
  }

  /** `transplant` starts by opening the destination; an existing clone always opens, and a
      clone that cannot be made ends the request with that error after the one clone command,
      with nothing pushed, rewritten or cleaned. */
  lemma TransplantOpening(o: Oracle, repos: seq<Catalog.Entry>, s: State, src: string, dst: string,
                          items: seq<Item>, dialect: Dialect)
    ensures var r := Transplant(o, repos, s, src, dst, items, dialect); var c := Clone(o, repos, s, dst);
      Opening(repos, s, dst) <= Added(s, r.after)
      && (dst in s.copies ==> c.result.Ok?)
      && (c.result.Err? ==>
            r.result == Err(c.result.error) && r.result.error.Backend?
            && Added(s, r.after) == [Cmd(dst, CloneOp(Catalog.RepoBaseUrl(repos, dst)))])
  {
    var c := Clone(o, repos, s, dst);
    var r := Transplant(o, repos, s, src, dst, items, dialect);
    if c.result.Ok? {
      AddedSplit(s, c.after, r.after);
    }
  }

  /** Once the destination is open, the body (the items, then the push and the tip) always runs to
      its end or its first error, and `cleanup` always follows it as the last commands; an error of
      the cleanup replaces the body's answer, and a cleanup that reached its strip leaves the
      destination with nothing modified and nothing untracked. */
  lemma RunOnCloneCleansUp(o: Oracle, repos: seq<Catalog.Entry>, s: State, src: string, dst: string,
                           items: seq<Item>, dialect: Dialect)
    requires dst in s.copies
    ensures var r := RunOnClone(o, repos, s, src, dst, items, dialect);
      var body := ItemsThenPush(o, repos, s, src, dst, items, dialect);
      var tail := Added(body.after, r.after);
      s.trace <= body.after.trace <= r.after.trace
      && 1 <= |tail| && tail <= CleanupCmds(dst)
      && (Cleanup(o, body.after, dst).result.Err? ==> r.result.Err? && r.result.error.Backend?)
      && (Cleanup(o, body.after, dst).result.Ok? ==> r.result == body.result)
      && (|tail| == 3 ==> !r.after.copies[dst].dirty && r.after.copies[dst].untracked == {})
  {
    var body := ItemsThenPush(o, repos, s, src, dst, items, dialect);
    CleanupCommands(o, body.after, dst);
  }

  /** The body pushes exactly once when every item succeeded, and not at all otherwise. */
  lemma ItemsThenPushPushes(o: Oracle, repos: seq<Catalog.Entry>, s: State, src: string, dst: string,
                            items: seq<Item>, dialect: Dialect)
    requires dst in s.copies
    ensures var body := ItemsThenPush(o, repos, s, src, dst, items, dialect);
      Pushes(Added(s, body.after)) == if ApplyItems(o, repos, s, src, dst, items, dialect).failure.None? then 1 else 0
  {
    var a := ApplyItems(o, repos, s, src, dst, items, dialect);
    var body := ItemsThenPush(o, repos, s, src, dst, items, dialect);
    ApplyItemsNeverPushes(o, repos, s, src, dst, items, dialect);
    NoPushCounts(Added(s, a.after));
    if a.failure.None? {
      var f := PushAndTip(o, a.after, dst);
      assert body == f;
      PushAndTipOutcome(o, a.after, dst);
      AddedSplit(s, a.after, f.after);
      PushesAppend(Added(s, a.after), Added(a.after, f.after));
    } else {
      assert body.after == a.after;
    }
  }

  /** `cleanup` never pushes. */
  lemma CleanupNeverPushes(o: Oracle, s: State, name: string)
    requires name in s.copies
    ensures Pushes(Added(s, Cleanup(o, s, name).after)) == 0
  {
    hide Cleanup;
    var cmds := Added(s, Cleanup(o, s, name).after);
    CleanupCommands(o, s, name);
    assert NoPush(cmds) by {
      assert forall c :: c in cmds ==> c in CleanupCmds(name);
    }
    NoPushCounts(cmds);
  }

  /** Exactly one push when every item succeeded, none otherwise. */
  lemma RunOnClonePushes(o: Oracle, repos: seq<Catalog.Entry>, s: State, src: string, dst: string,
                         items: seq<Item>, dialect: Dialect)
    requires dst in s.copies
    ensures var r := RunOnClone(o, repos, s, src, dst, items, dialect);
      Pushes(Added(s, r.after)) == if ApplyItems(o, repos, s, src, dst, items, dialect).failure.None? then 1 else 0
  {
    var body := ItemsThenPush(o, repos, s, src, dst, items, dialect);
    var r := RunOnClone(o, repos, s, src, dst, items, dialect);
    ItemsThenPushPushes(o, repos, s, src, dst, items, dialect);
    CleanupNeverPushes(o, body.after, dst);
    AddedSplit(s, body.after, r.after);
    PushesAppend(Added(s, body.after), Added(body.after, r.after));
  }

  /** Every request pushes at most once: exactly once when the destination opened and every item
      succeeded. */
  lemma TransplantPushesOnce(o: Oracle, repos: seq<Catalog.Entry>, s: State, src: string, dst: string,
                             items: seq<Item>, dialect: Dialect)
    ensures var r := Transplant(o, repos, s, src, dst, items, dialect); var c := Clone(o, repos, s, dst);
      Pushes(Added(s, r.after))
      == if c.result.Ok? && ApplyItems(o, repos, c.after, src, dst, items, dialect).failure.None? then 1 else 0
  {
    var c := Clone(o, repos, s, dst);
    var r := Transplant(o, repos, s, src, dst, items, dialect);
    assert NoPush(Added(s, c.after));
    NoPushCounts(Added(s, c.after));
    if c.result.Ok? {
      RunOnClonePushes(o, repos, c.after, src, dst, items, dialect);
      AddedSplit(s, c.after, r.after);
      PushesAppend(Added(s, c.after), Added(c.after, r.after));
    }
  }

  /** A successful request opened the destination, applied every item (each `commit` item by its
      own transplant), pushed once, and answers the destination's tip as the items left it. */
  lemma TransplantSucceeds(o: Oracle, repos: seq<Catalog.Entry>, s: State, src: string, dst: string,
                           items: seq<Item>, dialect: Dialect)
    ensures var r := Transplant(o, repos, s, src, dst, items, dialect); var c := Clone(o, repos, s, dst);
      r.result.Ok? ==>
        c.result.Ok?
        && var a := ApplyItems(o, repos, c.after, src, dst, items, dialect);
        a.failure.None? && a.applied == |items|
        && (forall i :: 0 <= i < |items| && items[i].commit.Some? ==>
              TransplantCmd(dst, src, Expr(items[i].commit.value), items[i].message) in Added(s, r.after))
        && Pushes(Added(s, r.after)) == 1
        && r.result.value == Tip(a.after.copies[dst])
  {
    var c := Clone(o, repos, s, dst);
    var r := Transplant(o, repos, s, src, dst, items, dialect);
    TransplantPushesOnce(o, repos, s, src, dst, items, dialect);
    if r.result.Ok? {
      var a := ApplyItems(o, repos, c.after, src, dst, items, dialect);
      var body := ItemsThenPush(o, repos, c.after, src, dst, items, dialect);
      RunOnCloneCleansUp(o, repos, c.after, src, dst, items, dialect);
      assert r.result == body.result;
      ApplyItemsIssuesEveryCommit(o, repos, c.after, src, dst, items, dialect);
      PushAndTipOutcome(o, a.after, dst);
      AddedSplit(s, c.after, a.after);
      AddedSplit(s, a.after, r.after);
    }
  }

  /** A request whose items did not all succeed fails and pushes nothing; unless the cleanup
      itself failed, its error is the first failing item's. */
  lemma TransplantFailure(o: Oracle, repos: seq<Catalog.Entry>, s: State, src: string, dst: string,
                          items: seq<Item>, dialect: Dialect)
    ensures var r := Transplant(o, repos, s, src, dst, items, dialect); var c := Clone(o, repos, s, dst);
      c.result.Ok? ==>
        var a := ApplyItems(o, repos, c.after, src, dst, items, dialect);
        a.failure.Some? ==>
          r.result.Err? && Pushes(Added(s, r.after)) == 0
          && (Cleanup(o, a.after, dst).result.Ok? ==> r.result.error == a.failure.value)
  {
    var c := Clone(o, repos, s, dst);
    TransplantPushesOnce(o, repos, s, src, dst, items, dialect);
    if c.result.Ok? {
      var a := ApplyItems(o, repos, c.after, src, dst, items, dialect);
      var body := ItemsThenPush(o, repos, c.after, src, dst, items, dialect);
      if a.failure.Some? {
        assert body.after == a.after;
        RunOnCloneCleansUp(o, repos, c.after, src, dst, items, dialect);
      }
    }
  }
}
