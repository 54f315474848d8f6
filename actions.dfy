/**
 * The transplant engine as it runs: each operation is a method on the repository handles of
 * one process (`Hg.Workspace`), issuing its backend commands one after the other and stopping
 * at the first error, as the engine does. Every method is proved to answer and to leave the
 * workspace exactly as the function of the same name in module Engine says, so the properties
 * proved about those functions hold of every run.
 */
module Actions {
  import opened Base
  import opened Hg
  import Catalog
  import Engine

  /** `clone(name)`: reopen the existing clone, or clone from the base URL when there is none;
      in both cases the paths are rewritten from the catalog. */
  method Clone(ws: Workspace, repos: seq<Catalog.Entry>, name: string) returns (r: Result<(), Engine.Error>)
    modifies ws
    ensures Engine.Ran(r, ws.Now()) == Engine.Clone(ws.oracle, repos, old(ws.Now()), name)
  {
    var url := Catalog.RepoUrl(repos, name);
    var base := Catalog.RepoBaseUrl(repos, name);
    if name !in ws.copies {
      var c := ws.CloneRepo(name, base);
      if c.Err? {
        return Err(Engine.Backend(c.error));
      }
    }
    ws.SetPaths(name, url, base);
    r := Ok(());
  }

  /** `optimistic_log`: log; only when that raised UnknownRevision, pull once and log again. */
  method OptimisticLog(ws: Workspace, name: string, rev: Revset) returns (r: Result<seq<Commit>, Engine.Error>)
    requires name in ws.copies
    modifies ws
    ensures Engine.Ran(r, ws.Now()) == Engine.OptimisticLog(ws.oracle, old(ws.Now()), name, rev)
  {
    var first := ws.Log(name, rev);
    if first.Err? && first.error.UnknownRevision? {
      var pulled := ws.Pull(name, rev, true);
      if pulled.Err? {
        return Err(Engine.Backend(pulled.error));
      }
      var second := ws.Log(name, rev);
      r := Engine.Lift(second);
    } else {
      r := Engine.Lift(first);
    }
  }

  /** `get_revset_info`: open the clone, resolve the revset, enforce the ceiling. */
  method GetRevsetInfo(ws: Workspace, repos: seq<Catalog.Entry>, name: string, revset: string)
    returns (r: Result<seq<Commit>, Engine.Error>)
    modifies ws
    ensures Engine.Ran(r, ws.Now()) == Engine.GetRevsetInfo(ws.oracle, repos, old(ws.Now()), name, revset)
  {
    var c := Clone(ws, repos, name);
    if c.Err? {
      return Err(c.error);
    }
    r := OptimisticLog(ws, name, Expr(revset));
    if r.Ok? && |r.value| > Engine.MaxCommits {
      r := Err(Engine.TooManyCommits(Engine.TooManyCommitsMessage(|r.value|, Engine.MaxCommits)));
    }
  }

  /** The first half of `cleanup`: update clean, then purge every untracked file. */
  method ResetWorkingDirectory(ws: Workspace, name: string) returns (r: Result<(), Engine.Error>)
    requires name in ws.copies
    modifies ws
    ensures Engine.Ran(r, ws.Now()) == Engine.ResetWorkingDirectory(ws.oracle, old(ws.Now()), name)
  {
    var u := ws.Update(name, true);
    if u.Err? {
      return Engine.Lift(u);
    }
    var p := ws.Purge(name, true);
    r := Engine.Lift(p);
  }

  /** `cleanup`: update clean, purge, then strip `outgoing(base)` without backup; a strip failure
      is swallowed when it only says the revision set was empty. */
  method Cleanup(ws: Workspace, name: string) returns (r: Result<(), Engine.Error>)
    requires name in ws.copies
    modifies ws
    ensures Engine.Ran(r, ws.Now()) == Engine.Cleanup(ws.oracle, old(ws.Now()), name)
  {
    r := ResetWorkingDirectory(ws, name);
    if r.Err? {
      return;
    }
    var s := ws.Strip(name, OutgoingBase, true);
    if s.Err? && s.error.Mercurial? && Contains(s.error.error.stderr, Engine.NothingToStrip) {
      r := Ok(());
    } else {
      r := Engine.Lift(s);
    }
  }

  /** `raw_transplant`: `hg transplant` from the clone `source`, with the message filter when a
      message is given. */
  method RawTransplant(ws: Workspace, dst: string, source: string, rev: Revset, message: Option<string>)
    returns (r: Result<(), Engine.Error>)
    requires dst in ws.copies
    modifies ws
    ensures Engine.Ran(r, ws.Now()) == Engine.RawTransplant(ws.oracle, old(ws.Now()), dst, source, rev, message)
  {
    var filter: Option<string> := None;
    var env: map<string, string> := map[];
    if message.Some? {
      filter := Some(Engine.TransplantFilter);
      env := env[TransplantMessageVar := message.value];
    }
    var t := ws.Transplant(dst, rev, source, filter, env);
    r := Engine.Lift(t);
  }

  /** The `clone(src)`, `clone(dst)` pair every transplant step starts with. */
  method OpenPair(ws: Workspace, repos: seq<Catalog.Entry>, src: string, dst: string)
    returns (r: Result<(), Engine.Error>)
    modifies ws
    ensures Engine.Ran(r, ws.Now()) == Engine.OpenPair(ws.oracle, repos, old(ws.Now()), src, dst)
  {
    r := Clone(ws, repos, src);
    if r.Ok? {
      r := Clone(ws, repos, dst);
    }
  }

  /** `_transplant`: open both clones, make sure the source has the revisions, `hg transplant`
      them into the destination, update it. */
  method TransplantRevisions(ws: Workspace, repos: seq<Catalog.Entry>, src: string, dst: string,
                             rev: Revset, message: Option<string>) returns (r: Result<(), Engine.Error>)
    modifies ws
    ensures Engine.Ran(r, ws.Now()) == Engine.TransplantRevisions(ws.oracle, repos, old(ws.Now()), src, dst, rev, message)
  {
    r := OpenPair(ws, repos, src, dst);
    if r.Err? {
      return;
    }
    var logged := OptimisticLog(ws, src, rev);
    if logged.Err? {
      return Err(logged.error);
    }
    r := RawTransplant(ws, dst, src, rev, message);
    if r.Err? {
      return;
    }
    var u := ws.Update(dst, false);
    r := Engine.Lift(u);
  }

  /** `transplant_commit`: one revision, with the item's message if it has one. */
  method TransplantCommit(ws: Workspace, repos: seq<Catalog.Entry>, src: string, dst: string,
                          commit: string, message: Option<string>) returns (r: Result<(), Engine.Error>)
    modifies ws
    ensures Engine.Ran(r, ws.Now()) == Engine.TransplantCommit(ws.oracle, repos, old(ws.Now()), src, dst, commit, message)
  {
    r := TransplantRevisions(ws, repos, src, dst, Expr(commit), message);
  }

  /** The tail of `transplant_revset`: log what arrived after the old tip and, when that is at
      least two changesets, collapse them into one carrying the item's message. */
  method CollapseArrivals(ws: Workspace, dst: string, oldTip: Node, message: Option<string>)
    returns (r: Result<(), Engine.Error>)
    requires dst in ws.copies
    modifies ws
    ensures Engine.Ran(r, ws.Now()) == Engine.CollapseArrivals(ws.oracle, old(ws.Now()), dst, oldTip, message)
  {
    var collapseRev := DescendantsOfChildren(oldTip);
    var descendants := ws.Log(dst, collapseRev);
    if descendants.Err? {
      return Err(Engine.Backend(descendants.error));
    }
    if |descendants.value| < 2 {
      return Ok(());
    }
    var c := ws.Collapse(dst, collapseRev, message);
    r := Engine.Lift(c);
  }

  /** The several-changesets branch of `transplant_revset`: remember the destination tip, transplant
      the changesets by id without a message, then collapse what arrived after the old tip. */
  method TransplantAndCollapse(ws: Workspace, repos: seq<Catalog.Entry>, src: string, dst: string,
                               commits: seq<Commit>, message: Option<string>) returns (r: Result<(), Engine.Error>)
    requires dst in ws.copies
    modifies ws
    ensures Engine.Ran(r, ws.Now())
            == Engine.TransplantAndCollapse(ws.oracle, repos, old(ws.Now()), src, dst, commits, message)
  {
    var oldTip := ws.Id(dst);
    if oldTip.Err? {
      return Err(Engine.Backend(oldTip.error));
    }
    var nodes := NodesOf(commits);
    r := TransplantRevisions(ws, repos, src, dst, Nodes(nodes), None);
    if r.Err? {
      return;
    }
    r := CollapseArrivals(ws, dst, oldTip.value, message);
  }

  /** `transplant_revset` once both clones are open. */
  method RevsetIntoOpenClone(ws: Workspace, repos: seq<Catalog.Entry>, src: string, dst: string,
                             revset: string, message: Option<string>) returns (r: Result<(), Engine.Error>)
    requires src in ws.copies && dst in ws.copies
    modifies ws
    ensures Engine.Ran(r, ws.Now())
            == Engine.RevsetIntoOpenClone(ws.oracle, repos, old(ws.Now()), src, dst, revset, message)
  {
    var commits := OptimisticLog(ws, src, Expr(revset));
    if commits.Err? {
      return Err(commits.error);
    }
    var count := |commits.value|;
    if count > Engine.MaxCommits {
      return Err(Engine.TooManyCommits(Engine.TooManyCommitsMessage(count, Engine.MaxCommits)));
    }
    if count == 0 {
      return Ok(());
    }
    if count == 1 {
      r := TransplantRevisions(ws, repos, src, dst, Expr(revset), message);
    } else {
      r := TransplantAndCollapse(ws, repos, src, dst, commits.value, message);
    }
  }

  /** `transplant_revset`: open both clones, then resolve, transplant and collapse. */
  method TransplantRevset(ws: Workspace, repos: seq<Catalog.Entry>, src: string, dst: string,
                          revset: string, message: Option<string>) returns (r: Result<(), Engine.Error>)
    modifies ws
    ensures Engine.Ran(r, ws.Now()) == Engine.TransplantRevset(ws.oracle, repos, old(ws.Now()), src, dst, revset, message)
  {
    r := OpenPair(ws, repos, src, dst);
    if r.Ok? {
      r := RevsetIntoOpenClone(ws, repos, src, dst, revset, message);
    }
  }

  /** `transplant_item`: a `commit` key wins over a `revset` key; an item with neither is an error. */
  method TransplantItem(ws: Workspace, repos: seq<Catalog.Entry>, src: string, dst: string, item: Engine.Item,
                        dialect: Engine.Dialect) returns (r: Result<(), Engine.Error>)
    modifies ws
    ensures Engine.Ran(r, ws.Now()) == Engine.TransplantItem(ws.oracle, repos, old(ws.Now()), src, dst, item, dialect)
  {
    if item.commit.Some? {
      r := TransplantCommit(ws, repos, src, dst, item.commit.value, item.message);
    } else if item.revset.Some? {
      r := TransplantRevset(ws, repos, src, dst, item.revset.value, item.message);
    } else {
      r := Err(Engine.UnknownItemError(item, dialect));
    }
  }

  /** The loop of `transplant`: items in request order until the first one fails. */
  method ApplyItems(ws: Workspace, repos: seq<Catalog.Entry>, src: string, dst: string, items: seq<Engine.Item>,
                    dialect: Engine.Dialect) returns (applied: nat, failure: Option<Engine.Error>)
    modifies ws
    ensures Engine.Progress(applied, failure, ws.Now())
            == Engine.ApplyItems(ws.oracle, repos, old(ws.Now()), src, dst, items, dialect)
  {
    ghost var whole := Engine.ApplyItems(ws.oracle, repos, ws.Now(), src, dst, items, dialect);
    applied, failure := 0, None;
    while applied < |items| && failure.None?
      invariant applied <= |items|
      invariant failure.None? ==>
        var rest := Engine.ApplyItems(ws.oracle, repos, ws.Now(), src, dst, items[applied..], dialect);
        whole == Engine.Progress(applied + rest.applied, rest.failure, rest.after)
      invariant failure.Some? ==> whole == Engine.Progress(applied, failure, ws.Now())
      decreases |items| - applied, if failure.None? then 1 else 0
    {
      assert items[applied..][1..] == items[applied + 1..];
      var t := TransplantItem(ws, repos, src, dst, items[applied], dialect);
      if t.Err? {
        failure := Some(t.error);
      } else {
        applied := applied + 1;
      }
    }
  }

  /** The end of `transplant`'s body: push the destination, then read its tip. */
  method PushAndTip(ws: Workspace, dst: string) returns (r: Result<Node, Engine.Error>)
    requires dst in ws.copies
    modifies ws
    ensures Engine.Ran(r, ws.Now()) == Engine.PushAndTip(ws.oracle, old(ws.Now()), dst)
  {
    var p := ws.Push(dst);
    if p.Err? {
      return Err(Engine.Backend(p.error));
    }
    var tip := ws.Id(dst);
    r := Engine.Lift(tip);
  }

  /** The `try` body of `transplant`: every item, then the push and the tip. */
  method ItemsThenPush(ws: Workspace, repos: seq<Catalog.Entry>, src: string, dst: string, items: seq<Engine.Item>,
                       dialect: Engine.Dialect) returns (r: Result<Node, Engine.Error>)
    requires dst in ws.copies
    modifies ws
    ensures Engine.Ran(r, ws.Now()) == Engine.ItemsThenPush(ws.oracle, repos, old(ws.Now()), src, dst, items, dialect)
  {
    var applied, failure := ApplyItems(ws, repos, src, dst, items, dialect);
    if failure.Some? {
      return Err(failure.value);
    }
    r := PushAndTip(ws, dst);
  }

  /** The part of `transplant` after the destination opened: the items and the push, then the
      cleanup (the `finally`), whose error replaces the result. */
  method RunOnClone(ws: Workspace, repos: seq<Catalog.Entry>, src: string, dst: string, items: seq<Engine.Item>,
                    dialect: Engine.Dialect) returns (r: Result<Node, Engine.Error>)
    requires dst in ws.copies
    modifies ws
    ensures Engine.Ran(r, ws.Now()) == Engine.RunOnClone(ws.oracle, repos, old(ws.Now()), src, dst, items, dialect)
  {
    r := ItemsThenPush(ws, repos, src, dst, items, dialect);
    var cleanup := Cleanup(ws, dst);
    if cleanup.Err? {
      r := Err(cleanup.error);
    }
  }

  /** `transplant`: open the destination, apply the items, push once and read the tip, and
      clean the destination up whatever happened once it was open. */
  method Transplant(ws: Workspace, repos: seq<Catalog.Entry>, src: string, dst: string, items: seq<Engine.Item>,
                    dialect: Engine.Dialect) returns (r: Result<Node, Engine.Error>)
    modifies ws
    ensures Engine.Ran(r, ws.Now()) == Engine.Transplant(ws.oracle, repos, old(ws.Now()), src, dst, items, dialect)
  {
    var open := Clone(ws, repos, dst);
    if open.Err? {
      return Err(open.error);
    }
    r := RunOnClone(ws, repos, src, dst, items, dialect);
  }
}
