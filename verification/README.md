# Uncluster, verified

A Dafny model of the parts of Uncluster where correctness depends on several
steps, several processes or a crash at the wrong moment, with proofs about every
run, every input or every reachable state.

**The policy path.** The control plane keeps ACL rows with a version and a hash
per agent (`PolicyStore`, `PolicyHash`, `Policy`). A heartbeat carries a policy
only when the hashes differ (`Handshake`), a one-slot channel coalesces
snapshots on their way to the worker (`ApplyChannel`), the worker rewrites the
principals directory (`PrincipalsDir`), and sshd reads it through
`agent principals` (`Access`). On Windows the rewrite goes through a spool file,
a polling writer and an acknowledgement file (`SpoolWriter`, `SpoolRuns`).

**Self-update.** The launcher supervises one child, waits for its health commit,
and demotes a version that fails (`Launcher`, and its loops as code in
`LauncherLoop`), moving symlink pointers that survive a stop after any
file-system call (`PayloadStore`).

**sshd_config.** The managed block is upserted, removed and checked on raw text
(`ManagedBlock` for any markers and line predicates, `SshdConfig` for the real
ones, `SshdLines` for what they and sshd make of a line).

**Small protocols.** The validation lockfile (`ValidationLock`), and agent
revocation against requests already under way (`Revocation`).

A protocol is a state machine: `Next` is one step of one participant, `Run` a
sequence of steps, and the theorems hold for all sequences. Code that updates
state in place is also given as classes with methods, each proved to take the
machine's steps or to have the stated effect. Failures the code reports
(a statement, a file-system call, a status write) are explicit outcomes.
Digests are symbolic: a digest remembers what it was taken of, so it is
collision-free by construction.

Some properties one might expect do not hold as plainly stated. Each has a
lemma with the input or run that breaks it, and one with the condition under
which it does hold:

- Hashes identify policies only on names the canonical format can carry
  (`ColonCollides`, `NewlineCollides`, `HashInjective`).
- A render is exact only if no user's temporary name is an earlier user's file
  (`DescendingLosesAFile`, `RenderExact`); the store's ascending order ensures it.
  On the way there, a user named like another's temporary file shows that
  user's lines (`TemporaryNameLetsIn`, `StopsCleanIff`).
- One grant with a name the agent refuses keeps every later change from the
  machine (`OneBadRowBlocksAll`), and a policy already on its way undoes a
  fail-closed wipe (`WipeStandsIff`).
- A version that commits health can still be quarantined, and the launcher can
  be left without a rollback target, when its exit or the deadline wins the
  select (`CommittedVersionLosesToExit`, `CommittedVersionLosesToDeadline`); a
  version is quarantined exactly when some select goes against it
  (`QuarantineIsRejections`, `GoodIsSparedIff`).
- A failed update is not always left behind: a version whose binary cannot be
  started is neither quarantined nor rolled back, an error the comment on `Run`
  does not list, and is tried again after each service restart
  (`UnstartableUpdateIsRetried`, `FailedRollbackRetries`, `NextStartIff`).
- One activation per child of a version that differs from current is not enough
  for recovery, since activating the same version again overwrites previous
  (`SecondActivationTraps`, `TrappedForever`, `ActivationKeepsBackingIff`).
- The comment in `principalswriter_windows.go` says the applied status is already
  written when the writer removes itself; it is only attempted
  (`RemovalWithoutStatus`, `RemovalFollowsWipe`). A nil from
  `submitDesiredState` can rest on a stale acknowledgement
  (`SecondWipeResolvesUnrendered`); exactly when it cannot is `NilIsRenderedIff`.
- `lock.go` says Release is safe to call more than once
  (`SecondReleaseFromTheStart`, `ReleaseAgainIsSafeIff`) and that a crash cannot
  wedge validation (`DeadCreatorWedges`; a written lock of a dead holder can
  always be taken over, `TakeoverIsSafeIff`).
- A re-install is not always idempotent (`TwoOldBlocksAreNotStable`); it is when
  no opening marker is left before the insertion point, and over line-aligned
  leftovers there exactly as `LeftoverStableIff` says.
- A revoked agent is always refused, but with 401 instead of 410 after a
  heartbeat that was already authenticated revives its row
  (`RevivedAgentGets401`, `GoneIffNotRevived`).

## Model

| member | source | states |
|---|---|---|
| `PolicyHash.Canonical` | internal/policyhash/policyhash.go:41-61 | the loop that sorts a copy and appends `username:caller` lines yields exactly the canonical bytes of the grants |
| `PolicyHash.ComputeHash` | internal/policyhash/policyhash.go:67-74 | the hash is the digest of the canonical bytes, and the empty string when there are none |
| `PolicyHash.CanonicalIgnoresOrder` | internal/policyhash/policyhash.go:41-61 | permuted grants have the same canonical bytes |
| `PolicyHash.ParseLines` | internal/policyhash/policyhash.go:53-60 | canonical bytes can be read back: parsing the lines gives the very list of grants, for names the format can carry |
| `PolicyHash.CanonicalInjective` | internal/policyhash/policyhash.go:41-61 | for usernames without newline and callers without newline or colon, equal bytes if and only if equal multisets of grants |
| `PolicyHash.HashInjective` | internal/policyhash/policyhash.go:67-74 | with a collision-free digest, equal hashes if and only if equal multisets of grants |
| `PolicyHash.HashEmptyIff` | internal/policyhash/policyhash.go:42-44 | no bytes, and the empty hash, exactly when there are no grants |
| `PolicyHash.ColonCollides` | internal/policyhash/policyhash.go:53-60 | a colon in a caller id makes two different policies share their bytes |
| `PolicyHash.NewlineCollides` | internal/policyhash/policyhash.go:53-60 | a newline in a username makes one grant read as two |
| `PolicyHash.SortSorts` | internal/policyhash/policyhash.go:45-52 | the sorted copy is ordered by username, then caller |
| `PolicyHash.SortOrders` | internal/policyhash/policyhash.go:45-52 | in the sorted copy usernames ascend byte-wise, and callers within one username |
| `Text.AsciiSpaceIff` | internal/agent/policy.go:203-207 | among the ASCII characters exactly the six white-space ones count as white space |
| `Text.StrLtAtFirstDifference` | internal/policyhash/policyhash.go:45-52 | the order of two strings is decided by the first byte that differs |
| `PolicyHash.SortedUnique` | internal/policyhash/policyhash.go:45-52 | there is one sorted order per multiset of grants |
| `Policy.FlattenGroup` | internal/store/sqlite.go:631-657 | grouping rows by username and flattening again gives back exactly the rows, in order |
| `Policy.GroupShape` | internal/store/sqlite.go:631-657 | groups of ordered rows have strictly ascending usernames and no empty caller list |
| `Policy.GroupUnique` | internal/store/sqlite.go:631-657 | grouping inverts flattening on ascending, non-empty groups: there is only one way to read the rows |
| `PolicyStore.Store.ComputePolicyHash` | internal/store/sqlite.go:682-702 | the scan over the ordered rows hashes exactly the agent's rows |
| `PolicyStore.Store.BumpPolicyVersionTx` | internal/store/sqlite.go:580-600 | the two upserts leave version plus one and the hash of the rows as the transaction sees them |
| `PolicyStore.Store.CreateACL` | internal/store/sqlite.go:427-461 | without a fault a grant that is new to an enrolled agent is returned and is the only row added, and that agent's version row alone rises by one; a duplicate hands back the existing row and changes nothing; every failure before the commit changes nothing, and one after it reports an error for a change that stands |
| `PolicyStore.Store.DeleteACL` | internal/store/sqlite.go:494-530 | without a fault an existing id is deleted; on success, of unique rows exactly the one with that id is gone, and the owning agent's version row alone rises by one; not found means a missing id; an error changes nothing |
| `PolicyStore.Store.GetPolicySnapshot` | internal/store/sqlite.go:610-665 | the grouped rows with the version and hash of the agent's version row, or 0 and the empty hash when there is none |
| `PolicyStore.EnrolledCanBeGranted` | internal/store/sqlite.go:427-461 | enrolling an agent makes grants to it possible, whatever is in the table |
| `PolicyStore.GroupScan` | internal/store/sqlite.go:638-653 | the map and first-seen order built by the row scan give the grouped rows |
| `PolicyStore.InOrder` | internal/store/sqlite.go:654-657 | the second loop lists the groups in first-seen order |
| `PolicyStore.EveryRunKeepsHashAndVersion` | internal/store/sqlite.go:427-600 | after any sequence of grants, re-grants, revokes and failed transactions, each stored hash is the hash of the current rows and each version has risen by exactly the number of operations that changed those rows |
| `PolicyStore.StepInv` | internal/store/sqlite.go:427-600 | each operation keeps unique rows, enrolled agents and correct hashes |
| `PolicyStore.StepGrants` | internal/store/sqlite.go:580-600 | one operation moves an agent's version by one exactly when that agent's rows changed, and nobody else's |
| `PolicyStore.EmptyStoreInv` | internal/store/sqlite.go:580-600 | a new database satisfies the invariant |
| `PolicyStore.SnapshotIsAuthentic` | internal/store/sqlite.go:610-665 | a snapshot has ascending usernames, non-empty callers, the hash of its own content, and flattens to exactly the agent's rows |
| `PolicyStore.GrantsOfMembership` | internal/store/sqlite.go:631-634 | a grant is among an agent's rows exactly when the table holds the triple |
| `PrincipalsDir.Directory.AtomicWritePrincipals` | internal/agent/policy.go:162-195 | success replaces the file and consumes the temporary; on failure the temporary name holds the first lines, or was removed, and nothing else changed |
| `PrincipalsDir.Directory.WriteUser` | internal/agent/policy.go:106-117 | one user: removed when without callers, otherwise replaced; a failure leaves at most this user's temporary name changed |
| `PrincipalsDir.Directory.WriteUsers` | internal/agent/policy.go:98-118 | the write loop applies every user in payload order and computes the names to keep; a failure leaves the users before it written and the one it stopped at half done |
| `PrincipalsDir.Directory.Sweep` | internal/agent/policy.go:120-136 | exactly the unwanted entries are deleted |
| `PrincipalsDir.ValidateCallerTokenID` | internal/agent/policy.go:199-209 | accepted exactly when not empty and free of white space, commas and glob characters |
| `PrincipalsDir.CallerMatchesOnlyItself` | internal/agent/policy.go:197-209 | an accepted caller id, read as a comma-separated list of glob patterns, matches itself and nothing else |
| `PrincipalsDir.ValidUsernameIff` | internal/agent/policy.go:212-221 | refused are exactly the empty name, the two dot names, and names with a separator of either kind, a NUL, or white space |
| `PrincipalsDir.Directory.RenderPrincipalsDir` | internal/agent/policy.go:88-137 | success is the specified rewrite of a valid payload, and certain for one when no file-system call fails; an invalid payload changes no file; whatever happens the directory is one of the specified stops |
| `PrincipalsDir.StopsCleanIff` | internal/agent/policy.go:88-195 | exact: at every stop of a rewrite the file under a name is the old one or what the policy wants, if and only if the name is not the temporary name of a user being written |
| `PrincipalsDir.RenderExact` | internal/agent/policy.go:88-137 | whatever the directory held, a successful rewrite with distinct usernames leaves exactly the described files if and only if no user's temporary name is an earlier user's file |
| `PrincipalsDir.AscendingIsSafe` | internal/agent/policy.go:162-195 | strictly ascending usernames never collide with a temporary name |
| `PrincipalsDir.RenderExactAscending` | internal/agent/policy.go:88-137 | for the order the store produces the rewrite is exact from any starting directory |
| `PrincipalsDir.DescendingLosesAFile` | internal/agent/policy.go:162-195 | in the other order a user named like another plus `.tmp` loses the file |
| `PrincipalsDir.DescribesUnique` | internal/agent/policy.go:88-137 | a policy describes only one directory |
| `Access.OnlyOwnFile` | internal/cli/agent_cmd.go:240-250 | a name with a separator, the empty name and the dot names read nothing; a validated name reads exactly its own file |
| `Access.ReadBack` | internal/cli/agent_cmd.go:240-250 | the lines printed for a user are exactly the policy's callers for that user |
| `Access.TemporaryNameLetsIn` | internal/agent/policy.go:162-195 | for a valid ascending policy with users a and a.tmp there is a stop at which a caller granted only a is listed for a.tmp |
| `Access.SshdSeesExactlyTheAcl` | internal/cli/agent_cmd.go:240-250 | end to end: after a successful rewrite of an agent's snapshot, caller c is listed for user u if and only if the ACL holds (c, agent, u) |
| `ApplyChannel.EveryRunDeliversInOrder` | internal/agent/agent.go:422-438 | under every interleaving the worker takes a subsequence of the dispatched snapshots in order, nothing is sent on a closed channel, and the last dispatched snapshot is never lost |
| `ApplyChannel.ReturnMeansDrained` | internal/agent/agent.go:157-202 | Run returns only after both goroutines ended and the channel is drained, the worker's last snapshot being the last dispatched |
| `ApplyChannel.ShutdownAlwaysCompletes` | internal/agent/agent.go:157-202 | from every reachable state the shutdown order leads to the return of Run, the worker having taken the last snapshot dispatched |
| `ApplyChannel.StepInv` | internal/agent/agent.go:157-202 | each step of each goroutine keeps the order and shutdown invariant |
| `ApplyChannel.Channel.Coalesce` | internal/agent/agent.go:422-438 | without interference the dispatch leaves the new snapshot pending, replacing an older one |
| `Handshake.AppliedHashDescribesDirectory` | internal/agent/policy.go:37-66 | in every run, whenever the latest apply of the process succeeded, the directory is exactly what a policy with the reported applied hash and version describes |
| `Handshake.EqualHashesMeanCurrentPolicy` | internal/server/handlers_agent.go:179-194 | in every run over names the format can carry, when that hash equals the server's the directory is the current ACL projection |
| `Handshake.SameHashSamePrincipals` | internal/server/handlers_agent.go:179-194 | authentic policies with equal hashes are the same list of principals |
| `Handshake.RunInv` | internal/agent/agent.go:362-438 | the protocol invariant holds in every run mixing grants, revokes, heartbeats, coalescing, good and failed applies and wipes |
| `Handshake.OneRoundConverges` | internal/server/handlers_agent.go:179-194 | such a run exists: with a fixed valid ACL and nothing in flight, one heartbeat and one successful apply reach the ACL projection if and only if the reported hash differed or the directory was already right |
| `Handshake.AgreementIsStable` | internal/server/handlers_agent.go:179-194 | once the hashes agree and nothing in flight says otherwise, every run without an ACL change or a wipe, with heartbeats sent, served, lost or cut short, channel steps and shutdown in any order, leaves table, agent and directory unchanged |
| `Handshake.ConvergesInEveryRun` | internal/server/handlers_agent.go:179-194 | in every run with a fixed valid ACL and no wipe or failed apply, however stale what the channel still holds, once a policy answered in that time was received and nothing is on its way the directory is the ACL projection and the reported state is that policy's |
| `Handshake.ConvergesIff` | internal/agent/agent.go:422-438 | from a state with nothing in flight, every such run that ends so has reached the projection if and only if a policy was received on the way or the directory was right from the start |
| `Handshake.LostBeatChangesNothing` | internal/agent/agent.go:403-406 | a heartbeat lost before or after the server answered leaves everything as it was |
| `Handshake.SkipFreesTheWorker` | internal/agent/policy.go:39-43 | an apply skipped for want of a directory only frees the worker |
| `Handshake.WipeIsUndoneByNextBeat` | internal/agent/agent.go:247-270 | whatever is in flight, right after a fail-closed wipe the directory is empty and a non-empty ACL would be answered again |
| `Handshake.WipeStandsIff` | internal/agent/agent.go:247-270 | exact: in all runs with reliable applies the directory stays empty until another policy is received, if and only if nothing already pending or being applied puts a file back |
| `Handshake.LeavesEmptyIff` | internal/agent/policy.go:88-137 | a snapshot of the store puts nothing back exactly when nobody is in it or it is invalid |
| `Handshake.OneBadRowBlocksAll` | internal/server/handlers_acl.go:19-59 | while the ACL holds one row the agent refuses, every run without a wipe, with any grants and other revocations in it, leaves directory and reported hash unchanged |
| `Handshake.BadRowSpoils` | internal/store/sqlite.go:610-665 | one such row makes the whole snapshot invalid |
| `Handshake.RestartAgainstEmptyAclKeepsFiles` | internal/agent/agent.go:380-397 | a restarted agent reports the empty hash, so against an empty ACL files left by an earlier process stay in every run without an ACL change or a wipe, and are never what the ACL describes |
| `Handshake.Agent.RunApplyPolicy` | internal/agent/policy.go:37-66 | skipped without a configured directory; success records the version and hash of a valid policy and renders it; any failure keeps version and hash and marks the state failed; an invalid policy changes no file; a valid one on a reliable disk succeeds |
| `Handshake.Agent.CheckFailClosed` | internal/agent/agent.go:247-270 | the wipe is attempted exactly when configured, after a first success, and after the set silence; on a reliable disk it empties the directory and records version 0 and the empty hash |
| `Handshake.Agent.OnResponse` | internal/agent/agent.go:408-438 | a response records the success and leaves its policy pending for the worker |
| `SpoolWriter.NilMeansRendered` | internal/agent/policy_apply_windows.go:87-143 | in every run with failures and writer restarts, nil for a clear submission means the writer rendered exactly that state after the submission, the directory was then what it describes, and still is unless a writer was started since; a (version, hash) pair never seen before is always clear |
| `SpoolWriter.NilIsRenderedIff` | internal/agent/policy_apply_windows.go:87-143 | exact, in every reachable state: in all continuations nil means a render of the submitted state after the submission, if and only if at the submission no ok status under its pair is on disk, none is computed and waiting to be written, and no other valid state under the pair has been read for rendering |
| `SpoolRuns.RestartTearsUnderNil` | internal/agent/principalswriter_windows.go:104-143 | the exception is real: nil can come over whatever a restarted writer, cut off in its render of the same state, left behind |
| `SpoolWriter.RemovalFollowsWipe` | internal/agent/principalswriter_windows.go:104-143 | in every run the writer removes itself only after the same process rendered a deprovision state successfully and then attempted the ok status, which is on disk at the removal if and only if that write succeeded or the file already said so |
| `SpoolRuns.DeprovisionActsAfterWipe` | internal/agent/principalswriter.go:55-63 | the deprovision state shares its pair with the fail-closed wipe and is still acted on right after one, its bytes being different |
| `SpoolRuns.RemovalWithoutStatus` | internal/agent/principalswriter_windows.go:182-191 | a run in which the status write fails: the writer is gone and nothing on disk says so |
| `SpoolWriter.DeprovisionWipes` | internal/agent/principalswriter.go:61-63 | a successful render of the deprovision state leaves the empty directory |
| `SpoolRuns.SecondWipeResolvesUnrendered` | internal/agent/policy_apply_windows.go:87-143 | a concrete family of runs: a second version-0 wipe resolves on the first one's status while the directory is still the one the policy rendered in between describes, not the empty one |
| `SpoolWriter.RunInv` | internal/agent/principalswriter_windows.go:104-143 | every interleaving of submissions, polls, ticks, crashes and restarts keeps the protocol invariant |
| `SpoolWriter.PollApplied` | internal/agent/principalswriter.go:183-201 | the first matching reading resolves the wait, exactly when it comes no later than the deadline and the shutdown |
| `SpoolWriter.UnrenderedIsRetried` | internal/agent/principalswriter_windows.go:112-130 | in every run, what the running writer has not rendered successfully, a failed attempt included, is read again by its next tick |
| `SpoolWriter.PollResolvesIff` | internal/agent/principalswriter.go:160-162 | a poll ends the wait exactly when the status on disk is for the submitted pair, and as success exactly when it is ok |
| `SpoolWriter.FailedSubmitLeavesAll` | internal/agent/policy_apply_windows.go:95-97 | a submission whose spool file cannot be written is over at once and changes nothing |
| `SpoolWriter.PrincipalsWriter.ApplyDesiredStateBytes` | internal/agent/principalswriter.go:228-249 | the status carries the submitted pair, or the zero one for unparseable bytes; ok means a valid state was rendered; unparseable and invalid input fails with the directory unchanged; a valid state on a reliable disk succeeds |
| `SpoolWriter.PrincipalsWriter.TickOnce` | internal/agent/principalswriter_windows.go:104-143 | unchanged bytes do nothing; otherwise the digest advances exactly when the render was ok, the status file takes the status when its write succeeds, and the writer stops exactly after an ok deprovision, even when deleting its service fails; all of it is the protocol's read, render, report and finish |
| `PayloadStore.CurrentAlwaysResolves` | internal/agent/payloadstore.go:115-279 | once current resolves to a complete binary, stopping after any file-system call of any sequence of operations leaves current, and previous if present, resolving to a complete binary |
| `PayloadStore.QuarantinedNeverActivated` | internal/agent/payloadstore.go:164-186 | a version quarantined at any earlier point is never made current by Activate |
| `PayloadStore.AttemptKeeps` | internal/agent/payloadstore.go:115-279 | one operation stopped anywhere, with or without its cleanup, keeps every binary complete, every pointer valid and every quarantine mark |
| `PayloadStore.StageCompletes` | internal/agent/payloadstore.go:115-159 | a finished Stage installs exactly the given bytes, executable, leaves no temporary, and moves no pointer |
| `PayloadStore.ActivateSafe` | internal/agent/payloadstore.go:164-186 | every prefix of Activate is safe; finished, current is the version, previous is the old current, or as before when there was none, and binaries and quarantine are as they were |
| `PayloadStore.RollbackSafe` | internal/agent/payloadstore.go:220-235 | every prefix of Rollback is safe; finished, current and previous are both the old previous, and binaries and quarantine are as they were |
| `PayloadStore.SwapVisible` | internal/agent/payloadstore.go:268-279 | a pointer swap is invisible until its rename and complete with it, and touches no other pointer |
| `PayloadStore.ActivateMovesInOrder` | internal/agent/payloadstore.go:164-186 | stopped anywhere, Activate has moved nothing, previous only, or previous and then current |
| `PayloadStore.EmptyStoreInv` | internal/agent/payloadstore.go:101-108 | a new store satisfies the invariant |
| `PayloadStore.VersionPathComponent` | internal/agent/payloadstore.go:72-88 | accepted are exactly non-empty names of letters, digits and four punctuation marks other than the dot names, so never one with a separator |
| `PayloadStore.CleanupRemoves` | internal/agent/payloadstore.go:268-279 | the cleanup after a failed call takes the temporary file or link away |
| `PayloadStore.Store.Stage` | internal/agent/payloadstore.go:115-159 | the code performs a prefix of the specified calls, all of them when it reports success, which is certain for acceptable input when no call fails |
| `PayloadStore.Store.Activate` | internal/agent/payloadstore.go:164-186 | the code performs a prefix of the specified calls, all of them when it reports success, which is certain for acceptable input when no call fails |
| `PayloadStore.Store.Rollback` | internal/agent/payloadstore.go:220-235 | the code performs a prefix of the specified calls, all of them when it names a version, which is the old previous |
| `PayloadStore.Store.Quarantine` | internal/agent/payloadstore.go:240-253 | success adds exactly the mark |
| `PayloadStore.Store.SwapSymlink` | internal/agent/payloadstore.go:268-279 | the three calls in order, with the temporary link cleaned up or left on failure |
| `Launcher.AtMostOneChild` | internal/agent/launcher.go:140-286 | in every run, whichever event wins each race, at most one child is alive, and none once Run has returned |
| `Launcher.HealthIsTheChildsOwn` | internal/agent/healthmarker.go:155-173 | in every run a version is declared healthy only when the supervised child itself wrote a marker of the known schema with that version after it was started |
| `Launcher.ChildStep` | internal/agent/launcher_exec_unix.go:54-74 | each step keeps the invariant; the marker is removed before the spawn, so no earlier child's marker survives into a wait |
| `Launcher.BadUpdatesAreBacked` | internal/agent/launcher.go:140-316 | in every run in which only good versions commit, activations are safe and no select goes against a good version, over any number of bad updates a rollback target is never missing, no good version is quarantined, and a version about to be rolled back is backed by the good one that committed last |
| `Launcher.NextStartIff` | internal/agent/launcher.go:140-191 | in every such run that has come to spawn a bad version, through failed starts, returned errors and service restarts, the version picked next is the one that committed last if and only if a select went against the bad one and its rollback took effect; otherwise it is the bad one again |
| `Launcher.UnstartableUpdateIsRetried` | internal/agent/launcher.go:155-158 | an update, activated once and safely, whose binary cannot be started is tried again without end, with nothing quarantined and the last committed version still in previous |
| `Launcher.FailedRollbackRetries` | internal/agent/payloadstore.go:228-230 | a rollback that fails before its swap leads back to the same version |
| `Launcher.DeprovisionedNeverStarts` | internal/agent/launcher.go:142-148 | in every run from a deprovisioned state with no start under way, through service restarts too, no child is ever started |
| `Launcher.DeprovisionEndsRun` | internal/agent/launcher.go:219-231 | deprovisioning ends Run at the top of the loop and when the child exits |
| `Launcher.CancelEndsRun` | internal/agent/launcher.go:215-218 | a stop asked for by the service manager ends Run with no child left, quarantine and current untouched |
| `Launcher.ServiceRestartStartsCurrent` | internal/agent/launcher.go:140-152 | the next service start picks the current version again |
| `Launcher.QuarantinedStaysOut` | internal/agent/selfupdate_apply_unix.go:19-61 | in every run a quarantined version that neither pointer names is never current again nor started |
| `Launcher.QuarantineIsRejections` | internal/agent/launcher.go:205-249 | in every run whose marks can be written, the versions quarantined or on their way there are exactly those from before and those some select went against by taking the exit or the missed deadline, whatever they had committed |
| `Launcher.GoodIsSparedIff` | internal/agent/launcher.go:205-249 | so no good version is quarantined if and only if no select went against one |
| `Launcher.CommittedVersionLosesToExit` | internal/agent/launcher.go:219-231 | a committed version, already seen healthy by the watcher, is quarantined when the select takes its exit; with no previous the launcher gives up |
| `Launcher.CommittedVersionLosesToDeadline` | internal/agent/launcher.go:232-248 | so is one whose commit falls between the last poll and the deadline |
| `Launcher.RecoveryStep` | internal/agent/launcher.go:306-316 | each such step keeps a bad current backed by the version that committed last |
| `Launcher.ActivationKeepsBackingIff` | internal/agent/payloadstore.go:164-186 | an activation by a healthy child keeps that backing, cut short or complete, if and only if current is good and either the new version is good or current is the child's own |
| `Launcher.SecondActivationLosesPrevious` | internal/agent/selfupdate_apply_unix.go:19-61 | activating the same version twice before the restart makes previous that unproven version |
| `Launcher.SecondActivationTraps` | internal/agent/launcher.go:140-191 | from a healthy start, such a child and its restart leave the launcher with that version as both current and previous |
| `Launcher.TrappedForever` | internal/agent/launcher.go:306-316 | from there every rollback returns to the quarantined version, however often it fails |
| `Launcher.Supervisor.ConsumePendingUpdate` | internal/agent/launcher.go:290-301 | reports the marker and clears it, so one update causes one restart |
| `Launcher.Supervisor.DemoteBadVersion` | internal/agent/launcher.go:306-316 | success means current is the old previous; without a previous it fails and moves nothing; the store stays crash safe throughout |
| `Launcher.Supervisor.ApplyUpdate` | internal/agent/selfupdate_apply_unix.go:19-61 | a quarantined or undownloaded version changes nothing; an acceptable version succeeds when no call fails; the restart is asked for only after current resolves to the completely staged new version |
| `LauncherLoop.Host.RunLauncher` | internal/agent/launcher.go:140-191 | the loop as written is a run of the state machine in which, at every moment, one child at most is alive, none outside its supervision or after the return, and health is the child's own; nothing is started once the agent is deprovisioned; it stops only where it returned or waits with nothing to react to, having spawned a child in every completed pass |
| `LauncherLoop.Host.SuperviseUntilHealthy` | internal/agent/launcher.go:205-249 | each outcome of the select leaves the launcher where that outcome says, with no child alive on any decided path but the healthy one; it stays undecided only while no case is ready |
| `LauncherLoop.Host.SuperviseSteadyState` | internal/agent/launcher.go:253-286 | exit, update and shutdown each leave the launcher where the outcome says, with no child alive; it stays undecided only while no case is ready |
| `LauncherLoop.Host.StopChild` | internal/agent/launcher.go:319-325 | stop and the receive from the exit channel leave no child alive before control moves on |
| `LauncherLoop.Host.StartCurrent` | internal/agent/launcher.go:141-159 | the top of the loop either returns or has started a child, never when deprovisioned |
| `LauncherLoop.Host.TakeExit` | internal/agent/launcher.go:219-231 | an exit counts against the version unless a stop or deprovisioning explains it |
| `LauncherLoop.Host.TakeHealth` | internal/agent/launcher.go:232-248 | health leads to steady supervision, a missed deadline to a stop and a demotion unless cancelled |
| `LauncherLoop.Host.DemoteBadVersion` | internal/agent/launcher.go:306-316 | with reliable calls the version is quarantined and current is the old previous; back to the top of the loop, or returned; the no-last-known-good error only without a previous |
| `ManagedBlock.FirstMatchOffset` | internal/gatekeeper/sshdconfig.go:40-49 | the walk over terminated lines finds exactly the offset of the first Match line |
| `ManagedBlock.SeamExists` | internal/gatekeeper/sshdconfig.go:40-61 | the insertion point splits every text after whole lines of which none is a Match line, at the offset found or at the end |
| `ManagedBlock.FirstMatchIsMatch` | internal/gatekeeper/sshdconfig.go:40-49 | the line at the offset found is a Match line |
| `ManagedBlock.NoMatchBefore` | internal/gatekeeper/sshdconfig.go:40-49 | no line that starts before the offset found, or none at all, is a Match line |
| `ManagedBlock.HealthCheckIff` | internal/gatekeeper/sshdconfig.go:118-127 | the health check says yes exactly when both markers occur and no line that starts at or before the first opening marker is a Match line |
| `ManagedBlock.RemoveCases` | internal/gatekeeper/sshdconfig.go:65-80 | nothing without an opening marker; everything from it on without a closing one after it; otherwise everything from the one through the other and one newline |
| `ManagedBlock.StripLegacyIncludeLines` | internal/gatekeeper/sshdconfig.go:85-101 | the loop keeps exactly the lines that are not legacy, in order |
| `ManagedBlock.InsertIsEffective` | internal/gatekeeper/sshdconfig.go:53-61 | for every text the inserted block lies before any Match line as the health check sees it |
| `ManagedBlock.RemoveBlock` | internal/gatekeeper/sshdconfig.go:65-80 | a line-aligned block is cut out exactly, whatever surrounds it |
| `ManagedBlock.RemoveUndoesInsert` | internal/gatekeeper/sshdconfig.go:53-80 | for text without an opening marker, removing after inserting gives back the text, its last line terminated only where the block was appended |
| `ManagedBlock.UpsertIdempotent` | internal/gatekeeper/sshdconfig.go:108-112 | upserting twice is upserting once whenever no opening marker is left before the insertion point; markers after the first Match line do no harm |
| `ManagedBlock.OneRemovalClearsHead` | internal/gatekeeper/sshdconfig.go:65-80 | in particular when one removal leaves no opening marker at all |
| `ManagedBlock.LeftoverStableIff` | internal/gatekeeper/sshdconfig.go:108-112 | with an old block left on its own lines before the insertion point, upserting twice is upserting once if and only if the old block followed by the lines after it equals those lines followed by the new block |
| `ManagedBlock.LastLeftoverStableIff` | internal/gatekeeper/sshdconfig.go:108-112 | when no marker follows it, that is: the old block is the new one and ends at the insertion point |
| `ManagedBlock.UnclosedLeftoverIsNotStable` | internal/gatekeeper/sshdconfig.go:65-80 | an opening marker left without its closing one before the insertion point always makes the second upsert change the text |
| `ManagedBlock.InsertMarksOnce` | internal/gatekeeper/sshdconfig.go:53-61 | the opening marker then occurs exactly once |
| `ManagedBlock.InsertKeepsLines` | internal/gatekeeper/sshdconfig.go:53-61 | inserting keeps every line of the text, in order |
| `ManagedBlock.UpsertKeepsLines` | internal/gatekeeper/sshdconfig.go:108-112 | upserting over a line-aligned block keeps every other non-legacy line, in order |
| `ManagedBlock.TwoOldBlocksChangeTwice` | internal/gatekeeper/sshdconfig.go:65-80 | with two old blocks only one goes per call, so a second call changes the text again |
| `SshdConfig.InstallIsEffective` | internal/gatekeeper/sshdconfig.go:108-127 | for every file content, after an upsert the health check reports the block in force |
| `SshdConfig.ReinstallIsIdempotent` | internal/gatekeeper/sshdconfig.go:108-112 | re-installing changes nothing when no opening marker is left before the insertion point, and leaves one opening marker when one removal clears them |
| `SshdConfig.ReinstallOverLeftoverIff` | internal/gatekeeper/sshdconfig.go:108-112 | over an older block left there with no marker after it, re-installing changes nothing if and only if that block is the new one and ends at the insertion point |
| `SshdConfig.RemoveRestores` | internal/gatekeeper/sshdconfig.go:65-80 | uninstalling restores the file the block was inserted into, up to the terminator of its last line |
| `SshdConfig.InstallKeepsOtherLines` | internal/gatekeeper/sshdconfig.go:85-112 | an install over a line-aligned block keeps every other non-legacy line, in order |
| `SshdConfig.TwoOldBlocksAreNotStable` | internal/gatekeeper/sshdconfig.go:108-112 | two copies of an older block break idempotence |
| `SshdConfig.SshdIsGood` | internal/gatekeeper/sshdconfig.go:19-22 | the actual markers and line predicates satisfy everything the editing proofs need |
| `SshdConfig.MatchLineIff` | internal/gatekeeper/sshdconfig.go:42-45 | a Match line is exactly one whose first whitespace-separated token equals Match in any case |
| `SshdLines.EqualFoldIff` | internal/gatekeeper/sshdconfig.go:42-45 | comparison up to case, for an ASCII word, is letter by letter |
| `SshdLines.LegacyLineIff` | internal/gatekeeper/sshdconfig.go:85-101 | a legacy line is, up to case and surrounding white space, the old installer's comment, or an Include with an argument that names the drop-in directory |
| `SshdLines.SshdReadsTheBlock` | internal/gatekeeper/gatekeeper.go:114-117 | after an install sshd uses the configured CA file and principals pattern, unless a line before the block sets the same keyword |
| `SshdConfig.SshdBlindToTerminator` | internal/gatekeeper/sshdconfig.go:40-49 | a line's terminator does not change whether it is a Match line |
| `SshdConfig.BlockIsBlock` | internal/gatekeeper/sshdconfig.go:31-35 | the rendered block is the two markers around the two directive lines |
| `SshdConfig.MatchIgnoresNewline` | internal/gatekeeper/sshdconfig.go:42-45 | trimming makes the terminated and bare line equivalent |
| `ValidationLock.MutualExclusion` | internal/validate/lock.go:45-154 | for any number of processes, if only dead holders' locks are judged stale, stale breaks do not overlap between re-read and remove, and a repeated Release does not read a half-written file, at most one live process owns the lock from the exclusive create on, and the lockfile is its own |
| `ValidationLock.RunInv` | internal/validate/lock.go:45-154 | the lock invariant holds in every such run |
| `ValidationLock.TakeoverIsSafeIff` | internal/validate/lock.go:95-130 | a process that judges a written lock stale gets it in one attempt, and exclusion survives if and only if the holder is dead |
| `ValidationLock.OverlappingBreaksBothHold` | internal/validate/lock.go:124-130 | two processes both between the matching re-read and the remove can both end up holding |
| `ValidationLock.SecondReleaseLetsTwoHold` | internal/validate/lock.go:134-154 | a second Release can remove a lockfile another process has created and not yet written, and two processes then hold |
| `ValidationLock.ReleaseAgainIsSafeIff` | internal/validate/lock.go:134-154 | in every state of the invariant a repeated Release leaves the lockfile alone if and only if it finds none that is created and not yet written |
| `ValidationLock.OverlapFromTheStart` | internal/validate/lock.go:95-130 | a run from the start in which two breaks overlap and two processes hold |
| `ValidationLock.SecondReleaseFromTheStart` | internal/validate/lock.go:134-154 | a run from the start in which a second Release lets two processes hold |
| `ValidationLock.DeadCreatorWedges` | internal/validate/lock.go:69-113 | a process that dies between create and write leaves a lockfile that no run keeping the three promises ever removes; outside them a repeated Release, which finds it half written, does |
| `ValidationLock.WedgeFromTheStart` | internal/validate/lock.go:69-82 | such a state is reached from the start |
| `ValidationLock.AttemptsEnd` | internal/validate/lock.go:45-65 | whatever the others do, each own step brings an attempt closer to its end, with one stale break at most and eight steps in all |
| `ValidationLock.HeldLockTurnsAway` | internal/validate/lock.go:55-64 | an attempt against a written lock that is not judged stale is turned away and changes nothing |
| `ValidationLock.Lockfile.TryCreateLock` | internal/validate/lock.go:69-82 | exclusive create, then write; a failed write removes the file |
| `ValidationLock.Lockfile.RemoveIfUnchanged` | internal/validate/lock.go:124-130 | removes exactly the file that was read |
| `ValidationLock.Lockfile.BreakIfStale` | internal/validate/lock.go:95-118 | breaks exactly a written lock that is aged or whose holder is dead |
| `ValidationLock.Lockfile.AcquireLock` | internal/validate/lock.go:45-65 | without interference the lock is taken exactly when the file is absent, or written and stale |
| `ValidationLock.Lockfile.ReleaseLock` | internal/validate/lock.go:134-154 | leaves another holder's written lock alone, and removes an unwritten one |
| `Revocation.RevokedAgentIsRefused` | internal/server/middleware_auth.go:58-81 | in every interleaving each request that arrives after RevokeAgent committed, with a token of that agent, is answered 401 or 410, despite heartbeats authenticated earlier and tokens created later |
| `Revocation.ActiveAgentPasses` | internal/server/middleware_auth.go:22-99 | in every run in which neither this agent nor this token is revoked, whoever else is, a request with the agent's token that gets an answer is let through as that agent |
| `Revocation.EnrolledAgentPasses` | internal/server/handlers_agent.go:88-124 | an agent enrolled from scratch is let in with its token |
| `Revocation.OtherTokenPasses` | internal/server/middleware_auth.go:22-99 | a fresh caller or join token, unexpired, is let in on the routes of its kind |
| `Revocation.DeadTokenIsRefused` | internal/server/middleware_auth.go:78-89 | in every run a request arriving with a revoked token, or a used join token, is never let through |
| `Revocation.RevokeTokenKills` | internal/store/sqlite.go:126-164 | revoking a token, or using a join token, makes it such a token |
| `Revocation.RunInv` | internal/store/sqlite.go:285-361 | the revocation invariant holds in every run |
| `Revocation.RevokeCloses` | internal/store/sqlite.go:285-312 | the transaction either marks the agent's token or, before enrollment creates it, leaves an agent row nobody can overwrite |
| `Revocation.SealedStep` | internal/server/handlers_agent.go:88-124 | that row stays revoked through the later token creation and every request that reads it |
| `Revocation.LateIsFixedAtArrival` | internal/server/middleware_auth.go:22-40 | what counts as late is fixed when the request arrives |
| `Revocation.AuthAnswersIff` | internal/server/middleware_auth.go:22-99 | independent of the order of the checks: a request passes exactly when token, kind, secret, revocation, expiry, use and agent status all allow it, and 410 goes exactly to linked agent tokens whose agent row says revoked, ahead of the token checks |
| `Revocation.RevivedAgentGets401` | internal/store/sqlite.go:356-361 | a heartbeat authenticated before the revocation puts the agent back online, and its next request is answered 401, not the 410 that makes it wipe |
| `Revocation.GoneIffNotRevived` | internal/server/middleware_auth.go:58-81 | in every run an agent request that arrived after the revocation is answered 410 if and only if no heartbeat had written the agent row since, when it read that row |
| `Revocation.Registry.RevokeAgentTx` | internal/store/sqlite.go:285-312 | exactly the agent tokens of this agent are marked and its status set, every other row staying as it was, or neither table changes, at every place the transaction can fail |
| `Revocation.Registry.UpdateAgentHeartbeat` | internal/store/sqlite.go:356-361 | the status becomes online whatever it was |

## Left out

- HTTP, JSON, TOML and routing: encoding is a lossless pair plus a parse-failure case; a `nil` and an empty list of principals are the same value.
- Cryptography: blake3, sha256, argon2 and certificate signing; digests are symbolic, and a secret verifies exactly when it is the stored one.
- Strings: a `char` stands for a byte in orders and offsets; the unusual Unicode case foldings are covered only as far as they can reach the ASCII words compared.
- Integers: versions and clocks are unbounded, so int64 overflow is not modelled.
- Durations and deadlines: a deadline, a tick or a timeout is an event that may come at any time.
- Power loss: file-system calls take effect in order; reordering behind a missing fsync is not modelled, nor are errors of best-effort cleanup beyond the cleanup being skipped.
- Sub-directories inside the principals directory, and the ownership and permission bits of its files.
- Windows ACLs and service control: deleting the writer's own service succeeds or fails as an event.
- `onRevoked`: the deprovision wipe on Unix, its marker and the cleanup hook; `Handshake` ends an agent process where that begins.
- Two submissions to the spool at once: a fail-closed wipe on the heartbeat goroutine and the worker's apply are taken one at a time in `SpoolWriter`, as one apply is one step in `Handshake`.
- Download and checksum of an update: verified bytes or an error, given as a parameter.
- Agent names and their uniqueness, endpoints, policy-state reporting, certificate events and update policy in the store and the heartbeat handler: single-statement bookkeeping.
- Reuse of a process id by a later process, and several lock users inside one process.
- Doctor checks, CLI commands other than `agent principals`, metrics and logging.
- Launcher.BadUpdatesAreBacked: assumes that no select goes against a good version, the exact condition by `GoodIsSparedIff`, and activations as `SafeActivation` allows, exact by `ActivationKeepsBackingIff`, instead of "at most one differing version per child", which `SecondActivationTraps` shows is not enough; `NextStartIff` inherits both. An error of a rollback call is told apart from a missing previous, although `demoteBadVersion` reports both in the same words.
- ManagedBlock.UpsertIdempotent: the converse is stated for markers that stand on lines of their own before the insertion point (`LeftoverStableIff`, `UnclosedLeftoverIsNotStable`), not for a marker in the middle of a line there.
- Handshake.EqualHashesMeanCurrentPolicy: assumes grants the canonical format can carry, because `ColonCollides` and `NewlineCollides` show hashes of other grants can agree by accident.
- A launcher killed outright, with its child left behind: its runs end only where `Run` returns.
- LauncherLoop.Host.RunLauncher: the loop is followed for any finite number of passes and waits; that it keeps supervising forever is not stated.
- SpoolWriter.PollApplied: the successive readings of the status file, the deadline and the shutdown are parameters; when both deadline and shutdown have passed the deadline is reported.
