# Transplant orchestration, modelled in Dafny

This project models the transplant service of the release-engineering API. The service moves
Mercurial changesets from a source repository into a destination repository:

- it resolves a revision set against a local clone, pulling once when the set is unknown there;
- it refuses a set of more than 100 changesets;
- it transplants single commits, and collapses a multi-commit revision set into one changeset;
- it pushes once, after every item succeeded;
- it always cleans the destination clone up again (update clean, purge, strip `outgoing(base)`).

The project models three things:

- The engine in `relengapi/blueprints/transplant/actions.py`.
- The request handlers of the task-based blueprint in `relengapi/blueprints/transplant/__init__.py`.
- The older blueprint `relengapi/blueprints/transplant.py`. It runs the same engine inside the
  request and maps backend failures to a 409 answer.

Modules, leaf first:

| file | module | what it holds |
|---|---|---|
| `base.dfy` | `Base` | `Option`, `Result`, substring search, decimal printing of integers |
| `catalog.dfy` | `Catalog` | the repository catalog: `find_repo`, `has_repo`, the URL getters, `is_allowed_transplant` |
| `hg.dfy` | `Hg` | the repository handle: one step function per Mercurial command, and class `Workspace` over the local clones with one method per command |
| `engine.dfy` | `Engine` | the engine as functions of the backend state: `clone`, `optimistic_log`, `get_revset_info`, `cleanup`, `raw_transplant`, `_transplant`, `transplant_commit`, `transplant_revset`, `transplant_item`, `transplant`, `too_many_commits_error` |
| `actions.dfy` | `Actions` | the same engine as methods on a `Workspace`, each proved to do exactly what its `Engine` function says |
| `guarantees.dfy` | `Guarantees` | what the engine promises: command order, the pull-retry, the ceiling, the collapse, one push, cleanup |
| `web.dfy` | `Web` | JSON values, Python truthiness, the validation chain of `flask_transplant`, response shapes |
| `api.dfy` | `Api` | `flask_transplant`, `flask_lookup`, `flask_status` of the task-based blueprint; the task's result |
| `legacy.dfy` | `Legacy` | `flask_lookup`, `flask_transplant`, `transplant` of the older blueprint |

How the backend is modelled:

- **State per name.** Every `clone(name)` in the source opens the same directory on disk. So the
  state lives in one `Hg.Workspace` object, keyed by repository name. Each clone has:
  - its history (oldest first, the tip last);
  - a working-copy-modified flag;
  - a set of untracked files;
  - the `paths.default` and `paths.base` settings.
  The workspace also holds the upstream repositories by URL.
- **Trace.** Every command is appended to `trace`.
- **Failures.** An oracle `fault(k)` decides whether the k-th command fails. A failure is a
  `Failure` value, so every exception the backend can raise is an explicit outcome:
  - `Mercurial(cmd, returncode, stdout, stderr)` for a `MercurialException`;
  - `UnknownRevision` for an `UnknownRevisionException`.
- **Errors.** The engine's own errors are `TooManyCommits`, `TransplantError` and, for the older
  blueprint, a bare `PlainException`.
- **Revision sets.** These are computed from the history:
  - explicit node lists;
  - `descendants(children(x))`;
  - `outgoing(base)`, the local commits the base remote lacks.
  Textual revision expressions are resolved by an oracle `interpret`.
- **Steps.** Each backend command is a function `XStep(oracle, state, ...)` giving its answer and
  the state after it; the `Workspace` method for that command is proved to answer and change the
  workspace exactly so.
- **Engine.** Each engine operation is a function of the oracle and the state before it, built
  from those steps in the order the code issues them. The `Actions` method of the same name is
  proved equal to it: same answer, same final state, same commands.
- **Properties.** What the engine promises is proved about those functions in `Guarantees`, in
  terms of the commands a run adds to the trace (`Engine.Added`) and of what the backend
  answers (`Hg.Resolve`, `Hg.Tip`, `Hg.OutgoingOf`, the oracle's faults).

Four behaviours of the code worth knowing:

- **Collapse without a message.** A multi-commit revision set without a message is still
  collapsed. `collapse` then receives no message, and the squashed changeset keeps every
  source message, as the squash test expects.
- **Already applied changesets.** `hg transplant` skips a selected changeset the destination
  already holds. When a multi-commit revision set brings in only one new changeset that way,
  `descendants(children(old_tip))` has fewer than two changesets. Nothing is collapsed, and
  the item's message is not applied to the one that arrived
  (`Guarantees.TransplantAndCollapseSingleArrival`).
- **No lock.** No per-repository lock exists in the code, so none is modelled.
- **Unknown repository at lookup.** A lookup on an unknown repository name raises no dedicated
  error. `clone` is then given no URL; the model assumes that the backend then fails
  (`Mercurial(unreachable)`), as listed under "Left out".

## Model

| member | source | states |
|---|---|---|
| `Catalog.Find` | relengapi/blueprints/transplant/actions.py:46-52 | an entry is found iff some entry has the name, and it is the first such entry |
| `Catalog.FindRepo` | relengapi/blueprints/transplant/actions.py:46-52 | the linear scan returns the first entry with the name, or None iff no entry has it |
| `Catalog.HasRepo` | relengapi/blueprints/transplant/actions.py:55-60 | true iff some catalog entry's name equals the given name |
| `Catalog.RepoUrl` | relengapi/blueprints/transplant/actions.py:63-68 | None iff the name is unknown, otherwise the `path` of the first entry with the name |
| `Catalog.RepoBaseUrl` | relengapi/blueprints/transplant/actions.py:71-79 | None iff the name is unknown, otherwise the entry's `base` when present and its `path` when not |
| `Catalog.BaseDefaultsToPath` | relengapi/blueprints/transplant/actions.py:76-79 | for an entry without `base`, the base URL equals the repository URL |
| `Catalog.IsAllowedTransplant` | relengapi/blueprints/transplant/actions.py:42-43 | a transplant is allowed exactly when source and destination differ |
| `Catalog.DefaultDestinationSeededFromSource` | relengapi/blueprints/transplant/actions.py:14-24 | in the default catalog the destination is seeded from the source's URL and pushes to its own URL |
| `Hg.JoinedKeepsMessages` | relengapi/blueprints/transplant_test.py:123-125 | every squashed changeset's message occurs in the default collapse message |
| `Hg.CloneStep` | relengapi/blueprints/transplant/actions.py:98 | one clone command; succeeds iff no fault and the source URL is a known remote; then a fresh clone of that remote's history, clean and without paths; a failure adds no clone |
| `Hg.LogStep` | relengapi/blueprints/transplant/actions.py:128 | one log command that changes no clone; a successful answer is exactly what the revision set resolves to |
| `Hg.PullStep` | relengapi/blueprints/transplant/actions.py:132 | one pull command; succeeds iff no fault and `paths.default` names a known remote; then appends, in order, the remote's commits the clone lacks, so the clone holds every commit of the remote; a failure changes nothing |
| `Hg.UpdateStep` | relengapi/blueprints/transplant/actions.py:140 | one update command; succeeds iff no fault; with `clean`, success discards local modifications |
| `Hg.PurgeStep` | relengapi/blueprints/transplant/actions.py:141 | one purge command; succeeds iff no fault, and then no untracked file is left |
| `Hg.StripStep` | relengapi/blueprints/transplant/actions.py:144 | one strip command; removes the selected changesets; an empty selection fails with "abort: empty revision set" and changes nothing |
| `Hg.PushStep` | relengapi/blueprints/transplant/actions.py:173 | one push command; the clones do not change; succeeds iff no fault and `paths.default` names a known remote; then that remote alone receives, in order, the local commits it lacks, so it holds every local commit; a failure changes nothing |
| `Hg.IdStep` | relengapi/blueprints/transplant/actions.py:175 | one id command that changes nothing; succeeds iff no fault, answering the tip's id |
| `Hg.TransplantStep` | relengapi/blueprints/transplant/actions.py:158 | one transplant command on the destination only; appends, in order, copies of the source's selected changesets that the destination does not already hold, under the filtered message; a conflict leaves the copy modified with reject files and no new changeset |
| `Hg.CollapseStep` | relengapi/blueprints/transplant/actions.py:229 | one collapse command; replaces the selected changesets by one squashed changeset at the tip; an empty selection fails |
| `Hg.Workspace.CloneRepo` | relengapi/blueprints/transplant/actions.py:98 | answers and changes the workspace exactly as `Hg.CloneStep` |
| `Hg.Workspace.SetPaths` | relengapi/blueprints/transplant/actions.py:103-108 | only the clone's `paths.default` and `paths.base` change; no command is issued |
| `Hg.Workspace.Log` | relengapi/blueprints/transplant/actions.py:128 | answers and changes the workspace exactly as `Hg.LogStep` |
| `Hg.Workspace.Pull` | relengapi/blueprints/transplant/actions.py:132 | answers and changes the workspace exactly as `Hg.PullStep` |
| `Hg.Workspace.Update` | relengapi/blueprints/transplant/actions.py:140 | answers and changes the workspace exactly as `Hg.UpdateStep` |
| `Hg.Workspace.Purge` | relengapi/blueprints/transplant/actions.py:141 | answers and changes the workspace exactly as `Hg.PurgeStep` |
| `Hg.Workspace.Strip` | relengapi/blueprints/transplant/actions.py:144 | answers and changes the workspace exactly as `Hg.StripStep` |
| `Hg.Workspace.Push` | relengapi/blueprints/transplant/actions.py:173 | answers and changes the workspace exactly as `Hg.PushStep` |
| `Hg.Workspace.Id` | relengapi/blueprints/transplant/actions.py:175 | answers and changes the workspace exactly as `Hg.IdStep` |
| `Hg.Workspace.Transplant` | relengapi/blueprints/transplant/actions.py:158 | answers and changes the workspace exactly as `Hg.TransplantStep` |
| `Hg.Workspace.Collapse` | relengapi/blueprints/transplant/actions.py:229 | answers and changes the workspace exactly as `Hg.CollapseStep` |
| `Engine.TooManyCommitsMessageNamesCount` | relengapi/blueprints/transplant/actions.py:246-248 | the ceiling message determines the offending count: two counts never produce the same message |
| `Engine.FilterFor` | relengapi/blueprints/transplant/actions.py:150-158 | the filter and `TRANSPLANT_MESSAGE` are set iff a message is given, and the variable holds exactly that message |
| `Engine.FilteredMessages` | relengapi/blueprints/transplant/actions.py:150-158 | a changeset transplanted with a message carries exactly the message, otherwise its own |
| `Engine.FilteredMessagesAll` | relengapi/blueprints/transplant_test.py:160-187 | every transplanted changeset carries the override when one is given, its source message otherwise |
| `Engine.StripVerdict` | relengapi/blueprints/transplant/actions.py:143-147 | a strip failure is swallowed iff it is a Mercurial failure whose stderr contains "empty revision set"; any other failure propagates unchanged |
| `Engine.EmptyStripIsSwallowed` | relengapi/blueprints/transplant/actions.py:143-147 | stripping a clone with nothing outgoing is not an error |
| `Engine.StripLeavesNothingOutgoing` | relengapi/blueprints/transplant/actions.py:144 | after stripping `outgoing(base)` nothing is outgoing any more |
| `Engine.CleanupLeavesClean` | relengapi/blueprints/transplant/actions.py:138-147 | after cleanup nothing is modified, untracked or outgoing |
| `Engine.CleanupOfCleanCopy` | relengapi/blueprints/transplant/actions.py:138-147 | cleanup changes nothing in a clone that is already clean |
| `Engine.CleanupIdempotent` | relengapi/blueprints/transplant/actions.py:138-147 | a second cleanup leaves the clone exactly as the first one did |
| `Engine.CleanupKeepsPublished` | relengapi/blueprints/transplant/actions.py:144 | a local commit the base remote has survives cleanup |
| `Engine.ConflictUndoneByCleanup` | relengapi/blueprints/transplant_test.py:189-227 | after a conflicting transplant, cleanup leaves the clone as cleanup alone would: no new changeset, no modification, no reject file |
| `Engine.SquashKeepsMessages` | relengapi/blueprints/transplant/actions.py:228-229 | the squashed changeset carries the caller's message, or without one every squashed message |
| `Engine.UnknownItemError` | relengapi/blueprints/transplant/actions.py:189-190 | "unknown item: ..." is a TransplantError in the task module and a bare Exception in the older blueprint |
| `Engine.Clone` | relengapi/blueprints/transplant/actions.py:91-110 | issues a clone from the base URL only when no clone of the name exists; succeeds iff the clone exists or the base URL is a reachable remote and no fault; on success `paths.default` is the URL and `paths.base` the base URL; an existing clone's history and working directory are kept |
| `Engine.OptimisticLog` | relengapi/blueprints/transplant/actions.py:126-135 | changes only the logged clone's history; a successful answer is what the revision set resolves to afterwards |
| `Engine.GetRevsetInfo` | relengapi/blueprints/transplant/actions.py:113-123 | leaves the remotes alone and only adds commands and clones |
| `Engine.ResetWorkingDirectory` | relengapi/blueprints/transplant/actions.py:140-141 | touches only the named clone, and never its history or base path |
| `Engine.Cleanup` | relengapi/blueprints/transplant/actions.py:138-147 | touches only the named clone and never the remotes |
| `Engine.RawTransplant` | relengapi/blueprints/transplant/actions.py:150-158 | issues exactly one transplant command carrying the message filter; only the destination changes |
| `Engine.OpenPair` | relengapi/blueprints/transplant/actions.py:233-234 | on success both clones exist; no existing history or working directory changes |
| `Engine.TransplantRevisions` | relengapi/blueprints/transplant/actions.py:232-243 | on success both clones exist; every error is a backend failure |
| `Engine.LogThenTransplant` | relengapi/blueprints/transplant/actions.py:236-241 | no clone is added or removed; every error is a backend failure |
| `Engine.TransplantCommit` | relengapi/blueprints/transplant/actions.py:193-195 | on success the destination clone exists; every error is a backend failure |
| `Engine.CollapseArrivals` | relengapi/blueprints/transplant/actions.py:221-229 | only the destination clone changes; every error is a backend failure |
| `Engine.TransplantAndCollapse` | relengapi/blueprints/transplant/actions.py:214-229 | leaves the remotes alone; every error is a backend failure |
| `Engine.RevsetIntoOpenClone` | relengapi/blueprints/transplant/actions.py:203-229 | every error is a backend failure or TooManyCommits; what each branch does, including an empty selection leaving the state as the log left it, is proved by `Guarantees.RevsetIntoOpenCloneSteps`, `RevsetIntoOpenCloneSingle` and `RevsetIntoOpenCloneMany` |
| `Engine.TransplantRevset` | relengapi/blueprints/transplant/actions.py:198-229 | every error is a backend failure or TooManyCommits |
| `Engine.TransplantItem` | relengapi/blueprints/transplant/actions.py:184-190 | leaves the remotes alone and only adds commands and clones |
| `Engine.ApplyItems` | relengapi/blueprints/transplant/actions.py:169-170 | at most every item is applied, and the loop reports no failure iff every item was applied |
| `Engine.PushAndTip` | relengapi/blueprints/transplant/actions.py:172-177 | the clones do not change |
| `Engine.ItemsThenPush` | relengapi/blueprints/transplant/actions.py:168-177 | only adds commands and clones |
| `Engine.RunOnClone` | relengapi/blueprints/transplant/actions.py:168-181 | only adds commands and clones |
| `Engine.Transplant` | relengapi/blueprints/transplant/actions.py:161-181 | only adds commands and clones |
| `Actions.Clone` | relengapi/blueprints/transplant/actions.py:91-110 | answers and leaves the workspace exactly as `Engine.Clone` |
| `Actions.OptimisticLog` | relengapi/blueprints/transplant/actions.py:126-135 | answers and leaves the workspace exactly as `Engine.OptimisticLog` |
| `Actions.GetRevsetInfo` | relengapi/blueprints/transplant/actions.py:113-123 | answers and leaves the workspace exactly as `Engine.GetRevsetInfo` |
| `Actions.ResetWorkingDirectory` | relengapi/blueprints/transplant/actions.py:140-141 | answers and leaves the workspace exactly as `Engine.ResetWorkingDirectory` |
| `Actions.Cleanup` | relengapi/blueprints/transplant/actions.py:138-147 | answers and leaves the workspace exactly as `Engine.Cleanup` |
| `Actions.RawTransplant` | relengapi/blueprints/transplant/actions.py:150-158 | answers and leaves the workspace exactly as `Engine.RawTransplant` |
| `Actions.OpenPair` | relengapi/blueprints/transplant/actions.py:233-234 | answers and leaves the workspace exactly as `Engine.OpenPair` |
| `Actions.TransplantRevisions` | relengapi/blueprints/transplant/actions.py:232-243 | answers and leaves the workspace exactly as `Engine.TransplantRevisions` |
| `Actions.TransplantCommit` | relengapi/blueprints/transplant/actions.py:193-195 | answers and leaves the workspace exactly as `Engine.TransplantCommit` |
| `Actions.CollapseArrivals` | relengapi/blueprints/transplant/actions.py:221-229 | answers and leaves the workspace exactly as `Engine.CollapseArrivals` |
| `Actions.TransplantAndCollapse` | relengapi/blueprints/transplant/actions.py:214-229 | answers and leaves the workspace exactly as `Engine.TransplantAndCollapse` |
| `Actions.RevsetIntoOpenClone` | relengapi/blueprints/transplant/actions.py:203-229 | answers and leaves the workspace exactly as `Engine.RevsetIntoOpenClone` |
| `Actions.TransplantRevset` | relengapi/blueprints/transplant/actions.py:198-229 | answers and leaves the workspace exactly as `Engine.TransplantRevset` |
| `Actions.TransplantItem` | relengapi/blueprints/transplant/actions.py:184-190 | answers and leaves the workspace exactly as `Engine.TransplantItem` |
| `Actions.ApplyItems` | relengapi/blueprints/transplant/actions.py:169-170 | the loop reports the count, the failure and the workspace exactly as `Engine.ApplyItems` |
| `Actions.PushAndTip` | relengapi/blueprints/transplant/actions.py:172-177 | answers and leaves the workspace exactly as `Engine.PushAndTip` |
| `Actions.ItemsThenPush` | relengapi/blueprints/transplant/actions.py:168-177 | answers and leaves the workspace exactly as `Engine.ItemsThenPush` |
| `Actions.RunOnClone` | relengapi/blueprints/transplant/actions.py:168-181 | answers and leaves the workspace exactly as `Engine.RunOnClone` |
| `Actions.Transplant` | relengapi/blueprints/transplant/actions.py:161-181 | answers and leaves the workspace exactly as `Engine.Transplant` |
| `Guarantees.OptimisticLogPullsOnce` | relengapi/blueprints/transplant/actions.py:126-135 | the first log raised UnknownRevision iff a pull follows it; a failed pull is then the answer after log, pull; a successful pull is followed by exactly one more log, whose answer, failure included, is the result; without UnknownRevision the first log's answer is the result after that one command |
| `Guarantees.GetRevsetInfoCommands` | relengapi/blueprints/transplant/actions.py:113-115 | only the clone's opening, then its log first and a pull-retry; a failed opening issues nothing more and fails |
| `Guarantees.GetRevsetInfoCeiling` | relengapi/blueprints/transplant/actions.py:113-123 | a failing clone is a backend error; once the clone is open, a log error or a log of at most 100 commits (exactly 100 included) is the answer unchanged, and that answer is what the revset resolves to; TooManyCommits iff clone and log succeed with more than 100, with the ceiling message naming that count |
| `Guarantees.ResetWorkingDirectoryOutcome` | relengapi/blueprints/transplant/actions.py:140-141 | update clean, then purge only if the update succeeded; success iff neither faults, leaving nothing modified or untracked |
| `Guarantees.CleanupCommands` | relengapi/blueprints/transplant/actions.py:138-147 | a prefix of update, purge, strip `outgoing(base)`; all three iff update and purge succeed, and then the result is the strip verdict of the strip's actual answer |
| `Guarantees.CleanupWhenHealthy` | relengapi/blueprints/transplant/actions.py:138-147 | without faults cleanup succeeds and leaves the clone as `Engine.AfterCleanup`, which is clean |
| `Guarantees.OpenPairOrder` | relengapi/blueprints/transplant/actions.py:233-234 | only clone commands, the source's first; on success both openings and both clones' paths set from the catalog |
| `Guarantees.RawTransplantArrivals` | relengapi/blueprints/transplant/actions.py:150-158 | on success the destination gains exactly the transplanted copies of the selected changesets it did not already hold, in order, each under the override when there is one; a conflict leaves it modified with reject files; any other failure changes nothing |
| `Guarantees.LogThenTransplantCommands` | relengapi/blueprints/transplant/actions.py:236-241 | only the source's log/pull, the one transplant command and the destination's update |
| `Guarantees.TransplantRevisionsCommands` | relengapi/blueprints/transplant/actions.py:232-243 | only clones of the two repositories, the source's log/pull, the one transplant command and the update |
| `Guarantees.TransplantRevisionsSteps` | relengapi/blueprints/transplant/actions.py:232-243 | on success: the openings, the log sequence starting with the log, then transplant and update, in that order; the log resolved the revset; the destination grew by copies of the logged changesets it did not already hold, each under the override when there is one |
| `Guarantees.TransplantCommitIssues` | relengapi/blueprints/transplant/actions.py:193-195 | never pushes, strips or collapses; the only transplant is the item's commit with its message; on success the log and the transplant were issued and every arrival carries the message |
| `Guarantees.CollapseArrivalsCommands` | relengapi/blueprints/transplant/actions.py:221-229 | logs `descendants(children(old_tip))` and collapses iff the log succeeded with at least two changesets; fewer leaves the clones unchanged |
| `Guarantees.CollapseArrivalsSquash` | relengapi/blueprints/transplant/actions.py:221-229 | a successful collapse replaces exactly the logged changesets by one at the tip carrying the message |
| `Guarantees.CollapseBranchKinds` | relengapi/blueprints/transplant/actions.py:214-229 | the several-commits branch never pushes or strips; its only rewrites are the node-list transplant and the collapse |
| `Guarantees.TransplantAndCollapseKinds` | relengapi/blueprints/transplant/actions.py:214-229 | every command of the branch is id, a clone, a log/pull, the node-list transplant, the update or the collapse of what follows the destination's tip |
| `Guarantees.TransplantAndCollapseCommands` | relengapi/blueprints/transplant/actions.py:214-229 | the id comes first; transplant is by node list without a message; the collapse names `descendants(children(tip))` of the destination before the run |
| `Guarantees.TransplantAndCollapseIssues` | relengapi/blueprints/transplant/actions.py:214-229 | on success the node-list transplant was issued; the collapse is issued iff id and transplant succeeded and the follow-up log saw at least two changesets |
| `Guarantees.TransplantAndCollapseSquash` | relengapi/blueprints/transplant/actions.py:221-229 | after a successful collapse the tip carries the caller's message, or every squashed message |
| `Guarantees.TransplantAndCollapseSingleArrival` | relengapi/blueprints/transplant/actions.py:215-226 | when the destination's tip occurs once and the transplant by ids brings in at most one changeset, no collapse is issued and the destination stays as that transplant without a message left it |
| `Guarantees.RevsetIntoOpenCloneSteps` | relengapi/blueprints/transplant/actions.py:203-210 | the source's log comes first and rewrites nothing; its answer is what the revset resolves to; a log error, more than 100 (TooManyCommits, iff, with the message naming the count) and 0 (success) each end with the state exactly as the log left it, which for distinct clones is the destination unchanged |
| `Guarantees.TransplantRevisionsRewrites` | relengapi/blueprints/transplant/actions.py:232-243 | the only rewrite is the one transplant command, issued on success |
| `Guarantees.TransplantAndCollapseRewrites` | relengapi/blueprints/transplant/actions.py:214-229 | the only rewrites are the node-list transplant and the collapse of what follows the old tip; with a message, a collapsed tip carries it |
| `Guarantees.OptimisticLogRewritesNothing` | relengapi/blueprints/transplant/actions.py:126-135 | the log and pull rewrite no history |
| `Guarantees.RevsetIntoOpenCloneSingle` | relengapi/blueprints/transplant/actions.py:212-213 | one changeset: the only rewrite is the caller's revset with the message, issued on success |
| `Guarantees.RevsetIntoOpenCloneMany` | relengapi/blueprints/transplant/actions.py:214-229 | several: the only rewrites are the node-list transplant of exactly the logged changesets and the collapse of what follows the destination's tip |
| `Guarantees.RevsetIntoOpenCloneCollapsed` | relengapi/blueprints/transplant/actions.py:228-229 | several, collapsed, with a message: the destination's tip carries it |
| `Guarantees.TransplantRevsetSteps` | relengapi/blueprints/transplant/actions.py:198-210 | the openings come first; a failed opening ends the step; then the source's log; the ceiling rewrites and pushes nothing; an empty selection succeeds, rewrites and pushes nothing, and leaves a distinct destination as the opening left it, with its history unchanged when it was already cloned |
| `Guarantees.RevsetIntoOpenCloneNeverStrips` | relengapi/blueprints/transplant/actions.py:203-229 | never pushes or strips |
| `Guarantees.RevsetIntoOpenCloneIssues` | relengapi/blueprints/transplant/actions.py:203-229 | on success the log succeeded within the ceiling; 0 rewrites nothing, 1 issues the caller's revset with the message, more issue the node-list transplant |
| `Guarantees.TransplantRevsetNeverStrips` | relengapi/blueprints/transplant/actions.py:198-229 | never pushes or strips |
| `Guarantees.TransplantRevsetIssues` | relengapi/blueprints/transplant/actions.py:198-229 | on success both clones opened and the log succeeded within the ceiling; 0 rewrites nothing, 1 issues the caller's revset with the message, more issue the node-list transplant |
| `Guarantees.TransplantItemIssues` | relengapi/blueprints/transplant/actions.py:184-195 | never pushes or strips; a commit item transplants only its commit and on success issued its log and transplant; a revset item on success issued its log; an item with neither fails with the unknown-item error and issues nothing |
| `Guarantees.ApplyItemsNeverPushes` | relengapi/blueprints/transplant/actions.py:169-170 | the items never push or strip |
| `Guarantees.ApplyItemsStopsAtFailure` | relengapi/blueprints/transplant/actions.py:169-170 | on a failure, the items before it all succeeded and the failure is exactly what the failing item raised, with nothing after it |
| `Guarantees.ApplyItemsIssuesEveryCommit` | relengapi/blueprints/transplant/actions.py:169-170 | when every item succeeded, every commit item's transplant command was issued |
| `Guarantees.PushAndTipOutcome` | relengapi/blueprints/transplant/actions.py:172-177 | exactly one push, then the id; on success the answer is the tip and the default remote has every local commit |
| `Guarantees.TransplantOpening` | relengapi/blueprints/transplant/actions.py:161-166 | the destination's opening comes first; a failed opening is the whole run, its error the result, and no cleanup follows |
| `Guarantees.RunOnCloneCleansUp` | relengapi/blueprints/transplant/actions.py:168-181 | cleanup always follows the body (a prefix of update, purge, strip); its error replaces the result, otherwise the body's result stands |
| `Guarantees.ItemsThenPushPushes` | relengapi/blueprints/transplant/actions.py:168-177 | the body pushes once iff every item succeeded, otherwise never |
| `Guarantees.CleanupNeverPushes` | relengapi/blueprints/transplant/actions.py:138-147 | cleanup never pushes |
| `Guarantees.RunOnClonePushes` | relengapi/blueprints/transplant/actions.py:168-181 | after the destination opened, one push iff every item succeeded, otherwise none |
| `Guarantees.TransplantPushesOnce` | relengapi/blueprints/transplant/actions.py:161-181 | a run pushes exactly once iff the destination opened and every item succeeded, otherwise never |
| `Guarantees.TransplantSucceeds` | relengapi/blueprints/transplant/actions.py:161-181 | success means every item succeeded, every commit item was transplanted, one push, and the answer is the destination's tip after the items |
| `Guarantees.TransplantFailure` | relengapi/blueprints/transplant/actions.py:168-181 | a failing item means an error and no push; with a healthy cleanup the error is the item's own |
| `Web.BadRequest` | relengapi/blueprints/transplant/__init__.py:25-26 | a 400 answer whose body is exactly `{'error': message}` |
| `Web.FirstFailure` | relengapi/blueprints/transplant/__init__.py:58-77 | the answer is the message of the first failing check, or none iff all checks pass |
| `Web.CheckRequest` | relengapi/blueprints/transplant/__init__.py:50-77 | submits iff params, src, dst, items are present, both repositories known and src != dst; otherwise rejects with the first failing check's message |
| `Web.ItemOf` | relengapi/blueprints/transplant/actions.py:184-195 | an item's `commit`, `revset` and `message` keys as the engine reads them |
| `Web.ItemsOf` | relengapi/blueprints/transplant/actions.py:169 | the request's items, one per list element, in order |
| `Web.CommitJson` | relengapi/blueprints/transplant/actions.py:121-123 | a commit record with node, author, author_email, date and message |
| `Web.RevsetJson` | relengapi/blueprints/transplant/actions.py:121-123 | `{'commits': ...}` with one record per resolved commit, in order |
| `Api.FlaskTransplant` | relengapi/blueprints/transplant/__init__.py:48-82 | a task is submitted exactly when the request is admissible; otherwise 400 with the first failing check's message |
| `Api.LookupResponse` | relengapi/blueprints/transplant/__init__.py:28-45 | TooManyCommits and TransplantError give 400 with the message, a backend failure 400 with its stderr, success `{'revset': info}` |
| `Api.FlaskLookup` | relengapi/blueprints/transplant/__init__.py:22-45 | an empty or missing revset gives 400 "No revset" without touching a repository; otherwise the mapped answer of `Engine.GetRevsetInfo`, leaving the workspace as it does |
| `Api.LookupAnswers` | relengapi/blueprints/transplant/__init__.py:22-45 | 200 iff the clone and the log succeed with at most 100 commits (exactly 100 included), and it carries exactly what the revset resolves to; more than 100 gives 400 with the ceiling message naming the count |
| `Api.TaskOutcomeOf` | relengapi/blueprints/transplant/tasks.py:16-23 | the task returns the tip, or `{'error': stderr}` for a backend failure; every other error is raised |
| `Api.StatusResponse` | relengapi/blueprints/transplant/__init__.py:84-108 | no task id gives 400 "No task"; otherwise `id` and `state` always, and once ready exactly one of `error` and `result` |
| `Api.FlaskStatus` | relengapi/blueprints/transplant/__init__.py:84-108 | builds the status answer in place, agreeing with `StatusResponse` |
| `Api.FinishedTransplantStatus` | relengapi/blueprints/transplant/__init__.py:93-108 | a finished transplant reports the tip as `result` iff the engine succeeded, otherwise an `error` |
| `Legacy.Details` | relengapi/blueprints/transplant.py:264-272 | the 409 details hold exactly the exception's cmd, returncode, stdout and stderr |
| `Legacy.TransplantResponse` | relengapi/blueprints/transplant.py:244-272 | success gives the tip; a Mercurial failure gives 409 "Transplant failed" with details; every other error escapes |
| `Legacy.LookupResponse` | relengapi/blueprints/transplant.py:70-83 | TooManyCommits gives 400 with its message, a backend failure 400 with its stderr, success `{'revset': info}`; other errors escape |
| `Legacy.FlaskLookup` | relengapi/blueprints/transplant.py:64-83 | an empty or missing revset gives 400 "No revset" without touching a repository; otherwise the mapped answer of `Engine.GetRevsetInfo`, leaving the workspace as it does |
| `Legacy.LookupAnswers` | relengapi/blueprints/transplant.py:64-83 | 200 iff the clone and the log succeed with at most 100 commits (exactly 100 included), and it carries exactly what the revset resolves to; more than 100 gives 400 with the ceiling message naming the count |
| `Legacy.Transplant` | relengapi/blueprints/transplant.py:239-272 | answers `TransplantResponse` of `Engine.Transplant` in the older blueprint's dialect and leaves the workspace as it does |
| `Legacy.CloneFailureConflicts` | relengapi/blueprints/transplant.py:244-272 | a failing `clone(dst)`, inside the `try`, also gives 409, with nothing but the clone issued |
| `Legacy.TransplantAnswers` | relengapi/blueprints/transplant.py:239-272 | 200 means every item succeeded, one push, and the body is the destination's tip; an unknown item with a healthy cleanup escapes as a bare exception |
| `Legacy.FlaskTransplant` | relengapi/blueprints/transplant.py:86-117 | rejects with 400 in the order of the checks, before any repository is touched; with items it can read, answers as `Transplant`; items it cannot read end in a crash (see "Left out") |
| `Legacy.UnknownItemEscapes` | relengapi/blueprints/transplant.py:275-281 | an unknown item escapes the 409 handler as a bare exception, while the task module raises a TransplantError |

## Left out

- The Mercurial engine behind the `repository` module is not part of this model. It is an abstract
  handle whose commands may fail by an oracle. Diff, merge and file content are not modelled: a
  changeset is its id, author, date and message. A conflict is an injected failure of `transplant`
  that leaves the working copy modified with reject files.
- Textual revision expressions are resolved by an oracle, and new changeset ids are minted by
  an oracle; their Mercurial semantics are not modelled.
- `get_repo_dir` (creating the work directory, `abspath`) and the `.hg` existence test: "already
  cloned" is "the workspace has a clone under this name".
- The process-global `Repository.username`/`Repository.email` assignment, the copy of
  `os.environ` (only `TRANSPLANT_MESSAGE` is modelled in the environment), logging and `print`.
- Celery dispatch and polling (`apply_async`, `AsyncResult`, `task.get`, the `add` task): the task
  id and what the queue reports about a task are parameters of the handlers.
- The template routes `flask_index` and `flask_config_js`, and JSON serialisation: an answer is its
  status code and the keys of its body.
- Concurrency: the code takes no lock, so parallel requests are not modelled.
- `rest.py`, `gulpfile.js`, `setup.py`, `settings.py`: type declarations, build and configuration.
- The unused `PULL_INTERVAL` constant of the older blueprint.
- Engine.Transplant: the destination's history after a whole run is not stated as one formula; what each item adds is stated per item (`Guarantees.TransplantRevisionsSteps`, `Guarantees.TransplantCommitIssues`, `Guarantees.CollapseArrivalsSquash`), and what cleanup then leaves by `Guarantees.CleanupWhenHealthy` and `Engine.StripLeavesNothingOutgoing`.
- Engine.TransplantRevset: when the source is the destination, an empty revision set is not stated to leave the destination unchanged, since the log's pull-retry then runs on that same clone; for distinct repositories `Guarantees.TransplantRevsetSteps` states it.
- Web.Json: a JSON number with a fraction or an exponent is not modelled, so a float `src`, `dst` or `items` (which Python reads as false when it is `0.0`) cannot be posted.
- Engine.GetRevsetInfo and the other engine functions carry only frame conditions in their own contracts; what they compute is stated by the `Guarantees` lemmas about them.
- Web.ItemOf: an item that is not an object of string-valued keys (which the source would use until a Python `TypeError`) is treated as a malformed request rather than modelled step by step.
- Python's `"{}".format` of a list or dict value in the rejection messages is printed as a placeholder, and `repr` of an unknown item is printed only for its `message` key.
- Api.TaskOutcomeOf: the text of an unknown-revision exception comes from the `repository` module, so it is a parameter.
- The `repository` module is assumed to fail a clone whose source URL is `None` (an unknown repository name); the model answers that clone with a Mercurial failure.
- Api.LookupResponse, Api.TaskOutcomeOf, Legacy.TransplantResponse and Engine.StripVerdict assume that `UnknownRevisionException` is not a subclass of `MercurialException`, so an `except MercurialException` clause does not catch it; the `repository` module that defines both is not part of this model.
- Web.CheckRequest: under Python 2, `'...{}'.format(name)` on a byte-string template with a non-ASCII repository name raises `UnicodeEncodeError`, which Flask answers with 500; the model answers 400 with the formatted message.
- Hg.TransplantStep: `hg transplant` also skips a changeset that it records as transplanted before, a record kept in the destination clone; a changeset here carries no such record, so only the changesets the destination already holds by id are skipped.
- Hg.PullStep: `rev` is not used; the pull brings in every commit of `paths.default` that the clone lacks, not only those `rev` needs.
- Hg.IdStep: answers the id of the last changeset of the history, not of the working directory's parent, and never adds the `+` that Mercurial appends for a modified working copy; the model does not track the working directory's parent apart from the tip.
- Engine.ItemRepr: an item whose `message` is JSON `null` is printed as `{}`, where Python prints `{u'message': None}`; only a string message is printed.
- Legacy.FlaskTransplant: an admissible request whose `items` is not a list of readable items is answered as a crash before any command, and the workspace is left as it was. The source first clones the destination, and a failing clone answers 409. It then applies the readable items before the first unreadable one, and a Mercurial failure among them answers 409. Cleanup runs before the error escapes. A string `items`, for one, raises "unknown item: " followed by its first character, after the clone. None of this path is modelled.
