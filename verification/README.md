# Fleet Terminal, verified

A Dafny model of the parts of Fleet Terminal, a privileged-access platform, in which something must
hold over every interleaving, every failure or every input. Each part keeps the form of its source:
protocols are state machines over their atomic steps, objects that change are classes, loops are loops,
and what they compute is tied to a specification about which the promises are proved.

- **Assistant actions** (`ActionMachine`, `ActionSafety`, `ActionAudit`, `ActionOrigins`,
  `ActionStanding`, `ActionRegistry`). Propose, confirm, send to approval, approve, deny and cancel, cut at every access
  to the store or the clock. Any number of calls, the reaper and account changes interleave; a read may
  fail, and a conditional update may be applied and its reply lost. `ActionRegistry` holds the calls statement by statement and shows that each of
  them takes only steps of the machine.
- **Upgrades** (`Docker`, `Updater`, `UpdaterMachine`, `ConfigMerge`). The upgrade and rollback pipeline
  over a daemon that may fail at every call, with a compose run observed at any number of moments, and
  the additive migration of the environment file at text level.
- **Administration** (`Admin`, `AdminLaws`, `AdminHandlers`). Users, roles and assignments with every handler as one
  step, and what every run of requests keeps.
- **Revocation lists** (`Krl`, `KrlPool`). The tick machine and the bounded worker pool.
- **Playbook runs** (`Allowlist`, `Targets`, `SshConfig`, `SshMeaning`, `JumpSettings`, `SshResolution`,
  `AcceptedConfig`, `VaultKeys`, `Inventory`, `InventoryFile`, `AcceptedInventory`,
  `InventoryVars`). Validation of a request, the generator of ssh_config and inventory text, a reader for
  each, and the proof of when what is read is what was asked for.
- **Documentation search** (`DocSections`, `DocIndex`, `DocSearch`, `DocRanking`), **payload
  trimming** (`Payload`), **access policy** (`AccessPolicy`) and **connection drain** (`Drain`).

`Text` and `Wrappers` hold what they share. `dafny verify dfyconfig.toml` checks everything.

## How to read the machines

A machine is a function `Apply(state, event)`; an event that is not possible leaves the state alone, so
every sequence of events is a run and a theorem about all sequences is a theorem about all schedules.
Outside results (a reply, a health answer, an encoded size, a random secret, the clock) are parameters or
nondeterministic choices.

## Promises that hold only under a condition

- A rollback restores what was running exactly when services sharing a `:rollback` tag started on the
  same image (`Updater.RollbackRestoresIff`). A manifest that tags an image `rollback` or uses one name
  for two components is outside the conditions under which that follows.
- A config merge defines just the old and requested keys exactly when no comment of a written entry
  carries a defining line (`ConfigMerge.MergeKeysExactly`).
- A trimmed list survives exactly when its key is none of `truncated`, `shown`, `total`, `note`
  (`Payload.RowsKeptIff`).
- The inventory of an accepted request reads back exactly when no name, address or user ends in a line
  feed and no written password contains a character at which Python ends a line
  (`AcceptedInventory.InventoryReadsBackIff`), and a password arrives as itself exactly when, besides,
  evaluating it as a literal leaves it alone (`AcceptedInventory.PasswordArrivesIff`).
- The address pattern admits exactly the allowlist on texts that do not end in a line feed
  (`Allowlist.AddressOkIff`), and a jump host text stands for a host alone exactly when it is not some
  host, a colon and a number (`Targets.HostAloneIff`).
- A zero connection counter proves the drain exactly when no Accept is under way (`Drain.ZeroCountIff`).
- The comment on Execute speaks of re-authorizing the live caller. The caller's permissions are those of
  the moment the request was authenticated; they are the live ones up to the claim exactly when nothing
  in between took the account or the permission away (`ActionStanding.LiveOwnerIff`). The same holds of
  the requester on an approval, from the read of the account on (`ActionStanding.LiveRequesterIff`).
- A success answer of an administration handler means the request took effect exactly when its target
  was there (`Admin.AnswerMeans`).
- A quiet tick of the revocation loop is right about a host exactly when the last distribution to touch
  the host since the last complete push, that push included, left the list the tick computed, or nothing
  touched it and it held that list all along (`Krl.QuietTickIff`).
- Every host of an accepted request has its own stanza exactly when no vaulted address is given twice or
  ends in a line feed and no host is addressed like the jump alias (`AcceptedConfig.ServedIff`). ssh can
  take every option exactly when the request names a jump host (`AcceptedConfig.ArgumentsIff`).

## Model

| member | source | states |
|---|---|---|
| `ActionSafety.EffectRunsAtMostOnce` | backend/internal/aiaction/registry.go:213-442 | over every interleaving of any number of calls, the reaper, account and permission changes and account deletions, an action's effect runs at most once |
| `ActionSafety.DeadActionsNeverRun` | backend/internal/aiaction/registry.go:213-442 | once an action is denied, expired or cancelled at some point of a run, its effect has not run and never will, whatever calls are still in flight, and it keeps that very status as long as it exists |
| `ActionSafety.StatusChangeLowersRank` | backend/internal/aiaction/registry.go:213-442 | every step that changes an action's status strictly lowers its rank, and a deleted action does not come back |
| `ActionSafety.AtMostThreeChanges` | backend/internal/aiaction/registry.go:213-442 | over any run an action changes status at most three times |
| `ActionSafety.ClaimKeeps` | backend/internal/store/assistant_actions.go:90-116 | a claim that took the row found it still open, so nobody else owned it and nothing had run for it |
| `ActionSafety.FinishKeeps` | backend/internal/store/assistant_actions.go:150-156 | the finishing write, which carries no guard, only ever touches the row its own call owns |
| `ActionSafety.StepKeeps` | backend/internal/aiaction/registry.go:181-452 | every step of every call, and everything that can happen between two steps, keeps the protocol invariant: one owner per action, an owned action is in executed, an action that ran is executed, failed or gone |
| `ActionSafety.OwnersComeFromClaims` | backend/internal/aiaction/registry.go:239-246 | a call owns an action only by having claimed it while it was proposed or pending approval |
| `ActionSafety.EffectsComeFromOwners` | backend/internal/aiaction/registry.go:247-254 | only a call that owns an action runs an effect, and it runs that action's |
| `ActionAudit.EveryEffectWasAuthorised` | backend/internal/aiaction/registry.go:199-384 | every effect of every run was authorised the way its stored risk demands: a safe one by its owner, whose account was enabled and permitted when the call was authenticated, inside the window, claimed while proposed; any other was sent to approval by its owner and claimed by a different user, with the deadline open, the requester enabled and the requester permitted at states between that user's read and claim |
| `ActionAudit.PendingWasSent` | backend/internal/aiaction/registry.go:295-335 | an action is pending approval only because an earlier step of the run was its own owner's request for approval |
| `ActionAudit.HistoryIsTheRun` | backend/internal/aiaction/registry.go:181-452 | the states the evidence speaks of are the states the run really went through, so a time stamp in the evidence names the state in which that event happened |
| `ActionOrigins.EffectFollowsProposal` | backend/internal/aiaction/registry.go:181-398 | every effect of every run goes back to the accepted proposal that put its action in; if the kind's risk or the policy of that moment asked for a second person it was approved by another user within a day of being sent, and otherwise confirmed by its owner within fifteen minutes of the proposal; it always runs as the owner |
| `ActionOrigins.RowOrigin` | backend/internal/aiaction/registry.go:181-335 | every stored action was put in by an accepted proposal of its owner's, and its deadline is fifteen minutes after that or a day after it was sent to approval |
| `ActionOrigins.ProposalStores` | backend/internal/aiaction/registry.go:181-207 | a proposal stores an action only if its kind is known and enabled, the account may and the parameters are good; the stored risk is safe exactly when neither the kind nor the policy asks for approval, and is otherwise never lowered |
| `ActionOrigins.GoesOnIff` | backend/internal/aiaction/registry.go:213-442 | the checks of each call let it on exactly when everything that call asks of actor, row and clock holds |
| `ActionOrigins.ClosedWasEntitled` | backend/internal/aiaction/registry.go:221-442 | every denied action was denied while pending by somebody other than its owner, who is recorded; every cancelled one was cancelled by its owner while proposed; every expired one was past its deadline |
| `ActionOrigins.ReapIsExact` | backend/internal/store/assistant_actions.go:175-183 | the reaper expires exactly the open actions past their deadline and changes nothing else |
| `ActionStanding.LiveOwnerIff` | backend/internal/aiaction/registry.go:209-246 | for every effect that ran on its owner's confirm, the owner was enabled and permitted in every state from the moment the request came in to the claim if and only if no event in between deleted, disabled or stripped the account |
| `ActionStanding.StrippedOwnerStillRuns` | backend/internal/aiaction/registry.go:209-246 | from every initial state in which a user may run a safe action there is a run in which that user proposes and confirms it, the account is disabled and stripped before the proposal is read, and the effect still runs |
| `ActionStanding.LiveRequesterIff` | backend/internal/aiaction/registry.go:342-384 | for every effect that ran on an approval, the requester was enabled and permitted in every state from the read of the account to the claim if and only if they were at that read and nothing in between deleted, disabled or stripped the account; if nothing did, they were from the read of the permissions on |
| `ActionStanding.StrippedRequesterStillRuns` | backend/internal/aiaction/registry.go:342-384 | from every initial state with a permitted requester and another enabled user there is a run in which the requester is disabled and stripped between the checks and the claim, and the effect still runs |
| `ActionStanding.StandsThroughoutIff` | backend/internal/aiaction/registry.go:209-246 | an account that stands at one point of a run stands up to another if and only if no event in between takes its standing away |
| `ActionRegistry.Registry.Execute` | backend/internal/aiaction/registry.go:213-268 | whatever others do between any two accesses, the answer is what the checks, in their order, say of the row, clock and claim as they were at the moments the call looked; it reports a run exactly when it ran the effect, and the row ends executed or failed accordingly; an answer of a closed window leaves the row no longer proposed |
| `ActionRegistry.Registry.RequestApproval` | backend/internal/aiaction/registry.go:295-335 | the same for sending to approval: nothing runs, and the answer is success exactly when this call moved the owner's own proposal to pending approval |
| `ActionRegistry.Registry.Approve` | backend/internal/aiaction/registry.go:346-398 | the same for approving, with the requester's account and permissions judged as they were at the two moments they were read; a requester who fails them, or cannot be read, leaves the action no longer pending approval |
| `ActionRegistry.Registry.Deny` | backend/internal/aiaction/registry.go:401-426 | nothing runs, and success means this call denied the action and is recorded as the decider |
| `ActionRegistry.Registry.Cancel` | backend/internal/aiaction/registry.go:429-442 | nothing runs, and success means this call cancelled its owner's own proposal |
| `ActionRegistry.Registry.CheckWindow` | backend/internal/aiaction/registry.go:221-224 | the window is judged at one clock reading after the row was read, and a lapsed proposal is no longer proposed afterwards unless the store failed |
| `ActionRegistry.Registry.VetRequester` | backend/internal/aiaction/registry.go:280-290 | the requester stands exactly when the account was read, exists and is enabled and the later read of the permissions, none if it fails, allows the action |
| `ActionRegistry.Registry.ClaimAndRun` | backend/internal/aiaction/registry.go:369-390 | the effect runs exactly when the store acknowledged that this call's conditional update found the row open |
| `ActionRegistry.Registry.RunAndFinish` | backend/internal/aiaction/registry.go:247-254 | a claimed action is run and then recorded, whatever happens in between |
| `ActionRegistry.Registry.Serve` | backend/internal/aiaction/registry.go:213-442 | a disabled or missing account gets nowhere; every other call concludes as its operation says, and an answer reports a run exactly when the effect ran |
| `ActionRegistry.Stop` | backend/internal/aiaction/registry.go:213-384 | the ordered refusals leave a call standing exactly when the protocol machine clears it, and report a closed window exactly when the machine marks the proposal lapsed |
| `ActionRegistry.RefusalIsTrue` | backend/internal/aiaction/registry.go:213-384 | each refusal names something that is so, and a call for owners answers for another user's action as for one that does not exist |
| `ActionRegistry.UpdateTakesOpen` | backend/internal/store/assistant_actions.go:90-116 | a conditional update changes the store exactly when the row is in the one status that operation starts from |
| `ActionRegistry.FollowsIsRun` | backend/internal/aiaction/registry.go:181-452 | a registry driven statement by statement is always in the state the machine reaches by the same events |
| `ActionRegistry.RegistryRunsOnce` | backend/internal/aiaction/registry.go:236-246 | whatever mix of calls a registry object has served, no action's effect has run twice |
| `UpdaterMachine.Machine.Apply` | backend/cmd/fleet-updater/apply.go:133-319 | for every pattern of failures the upgrade ends in success or failed; success puts every listed service except the updater's own on the manifest's image for its component; a failure before the first compose run changes no container; a completed rollback restores every anchored service if and only if services sharing a rollback tag started on the same image, so always with one image per component, distinct names and replicas that started alike; services without an anchor are left gone, as they were or on the new image, and those not listed either are never touched; a completed rollback restores, under those conditions, every running service of every component the bundle brings an image for whose inspection answered; success confirms the backend on the new version; the environment file was merged before anything was recreated; a verified upgrade fails only if some call failed; the updater's replacement is handed over only after success; up to the start of a rollback an additive release keeps all but at most one replica serving |
| `UpdaterMachine.Machine.Swap` | backend/cmd/fleet-updater/apply.go:232-297 | an additive release over several distinct replicas keeps, at every instant of the swap, all but at most one replica either untouched on its starting image or confirmed healthy on the new version |
| `UpdaterMachine.AllButOneServe` | backend/cmd/fleet-updater/apply.go:262-281 | at most one replica out means at least n - 1 of n are serving |
| `UpdaterMachine.RollingInstant` | backend/cmd/fleet-updater/apply.go:262-281 | while replica n is being recreated, earlier ones are confirmed and later ones untouched |
| `UpdaterMachine.Machine.RollBackends` | backend/cmd/fleet-updater/apply.go:262-281 | rolling one replica at a time, each gated on its health, keeps that guarantee and leaves all replicas on their pins when it succeeds |
| `UpdaterMachine.Machine.SwapBackend` | backend/cmd/fleet-updater/apply.go:262-297 | the rolling path is taken exactly for additive releases with several replicas; either path leaves the backend services on their pins when it succeeds |
| `UpdaterMachine.Machine.Sidecars` | backend/cmd/fleet-updater/apply.go:243-260 | the components swapped between frontend and backend are exactly the listed ones that are none of frontend, backend, updater |
| `UpdaterMachine.Machine.Prepare` | backend/cmd/fleet-updater/apply.go:156-230 | everything before the first compose run leaves every container alone and ends with the images loaded, the anchors in place and the override's pins those of the manifest |
| `UpdaterMachine.Machine.AnchorAll` | backend/cmd/fleet-updater/apply.go:189-215 | every running service of every component the bundle brings an image for, the updater's own aside, is anchored unless its inspection failed; every anchor is a rollback tag that points at the image some service sharing it was running, and no release tag is disturbed |
| `UpdaterMachine.Machine.AnchorImage` | backend/cmd/fleet-updater/apply.go:194-214 | all services of one component are anchored under its rollback tag unless their inspection failed, and a failure is a failed call |
| `Updater.SortedIsOrdered` | backend/cmd/fleet-updater/apply.go:180-192 | the images are taken in component order, each as often as the bundle lists it |
| `UpdaterMachine.Machine.SelfUpdate` | backend/cmd/fleet-updater/apply.go:354-397 | the replacement of the updater is handed to a helper with the image the override pins for it, or not at all |
| `UpdaterMachine.Machine.Rollback` | backend/cmd/fleet-updater/apply.go:323-347 | whatever happens the upgrade has failed, the reason tells how far the rollback got, and services without an anchor are not touched |
| `UpdaterMachine.Machine.LoadImages` | backend/cmd/fleet-updater/apply.go:180-187 | after a successful load every image of the bundle is available under its own name |
| `UpdaterMachine.Machine.Pins` | backend/cmd/fleet-updater/apply.go:217-230 | the override pins exactly the services of the bundle's components |
| `UpdaterMachine.PinsRunImages` | backend/cmd/fleet-updater/apply.go:217-230 | with one image per component under its own name, being on the pins means running the image the bundle brought for one's component |
| `UpdaterMachine.Machine.SwapOrRollBack` | backend/cmd/fleet-updater/apply.go:232-347 | a failed swap has recreated something and ends in one of the four rollback outcomes, with every service without an anchor gone, as it was or on its pin |
| `Updater.TidyIsUnambiguous` | backend/cmd/fleet-updater/apply.go:189-215 | one image per component under its own name means no service is anchored under two names |
| `UpdaterMachine.UpdaterIsLeftAlone` | backend/cmd/fleet-updater/apply.go:189-215 | the updater's own container is neither swapped nor anchored |
| `Updater.RollbackRestoresIff` | backend/cmd/fleet-updater/apply.go:323-347 | recreating services on their anchors restores every image if and only if services sharing an anchor had the same image |
| `Updater.TidyAnchorsAgree` | backend/cmd/fleet-updater/apply.go:189-215 | one image per component under its own name and replicas that started alike rule such clashes out |
| `Updater.MixedReplicasAreNotRestored` | backend/cmd/fleet-updater/apply.go:203-213 | two replicas that started on different images share one rollback tag, so a rollback leaves at least one of them on the wrong image |
| `Updater.PinnedToOwnImage` | backend/cmd/fleet-updater/apply.go:401-438 | a service of a component is pinned to that component's own image |
| `Docker.Daemon.ComposeUp` | backend/cmd/fleet-updater/docker.go:87-104 | a failing compose run may leave each of its services old, new or gone, at any number of moments in between as well, and touches no other service |
| `Docker.Daemon.WaitHealthy` | backend/cmd/fleet-updater/docker.go:133-157 | a replica counts as confirmed only after it answered healthy on the wanted version |
| `ConfigMerge.MergeConfigAdditions` | backend/cmd/fleet-updater/configmigrate.go:49-89 | the scan-and-append loop computes the merge that the following rows are about, errors included |
| `ConfigMerge.MergeExtends` | backend/cmd/fleet-updater/configmigrate.go:49-89 | the merged text begins with the old text, line for line, and the lines after it are exactly the written entries |
| `ConfigMerge.MergeDefines` | backend/cmd/fleet-updater/configmigrate.go:49-89 | for every key, the number of lines defining it grows by one if it was missing and asked for, however often, and otherwise only by what comments of written entries define |
| `ConfigMerge.MergeKeys` | backend/cmd/fleet-updater/configmigrate.go:49-89 | with newline-free comments the merged text reparses to the old keys and the requested ones, each missing key on exactly one line, each old one on as many as before |
| `ConfigMerge.MergeKeysExactly` | backend/cmd/fleet-updater/configmigrate.go:49-89 | the merge defines just the old and requested keys if and only if no comment of a written entry carries a line that defines another key |
| `ConfigMerge.CommentCanDefineKey` | backend/internal/release/manifest.go:62-76 | validation accepts an addition whose comment has a second line, and that line can define a key nobody asked for |
| `ConfigMerge.MergeTwice` | backend/cmd/fleet-updater/configmigrate.go:49-89 | merging again adds nothing and returns the same text, whatever the random source now yields |
| `ConfigMerge.MergedValue` | backend/cmd/fleet-updater/configmigrate.go:67-86 | the first addition that asks for a missing key decides its line: the generated secret exactly when it asked for one, its default otherwise, with its one-line comment kept |
| `ConfigMerge.MergeFailsIff` | backend/cmd/fleet-updater/configmigrate.go:67-86 | the merge fails if and only if some addition is not valid, or a secret that is the first to be asked for under a missing key cannot be made |
| `ConfigMerge.EntryDefinesKey` | backend/cmd/fleet-updater/configmigrate.go:56-66 | a written entry reads back as a definition of exactly its own key |
| `ConfigMerge.EnvFile.ApplyConfigAdditions` | backend/cmd/fleet-updater/configmigrate.go:20-44 | the file is rewritten only when a key was missing and read and merge succeeded; a write that breaks off is reported and leaves a prefix of the merged text |
| `Admin.RunKeepsInv` | backend/internal/admin/users.go:54-449 | every run of administration requests keeps at least one enabled super administrator and keeps holding the built-in role equivalent to carrying the flag, for every user |
| `Admin.NoEscalation` | backend/internal/admin/admin.go:132-145 | over any run of requests by accounts that are not super administrators, a permission one of them effectively holds at the end, one of them held at the start |
| `Admin.SupersUntouched` | backend/internal/admin/admin.go:150-159 | over such a run the super administrators stay exactly who they were, each as enabled as before |
| `Admin.GrantIsBacked` | backend/internal/admin/users.go:385-418 | a permission that a request newly gives to anyone was already held by that user or by the account making the request |
| `Admin.SupersStep` | backend/internal/admin/admin.go:169-180 | no single request takes the last enabled super administrator away |
| `Admin.MirroredStep` | backend/internal/admin/users.go:192-221 | no single request lets role and flag drift apart |
| `Admin.WellFormedStep` | backend/internal/admin/roles.go:31-89 | role names stay unique, assignments name existing users and roles, the built-in role stays |
| `AdminLaws.SucceedsIff` | backend/internal/admin/admin.go:22-180 | a request succeeds if and only if the account is enabled and holds the permission its route names, is a super administrator where the request concerns one, holds everything the request hands out, and the request is well formed, would leave an enabled super administrator and fits the store |
| `AdminLaws.RefusalMeans` | backend/internal/admin/admin.go:22-180 | forbidden means the authority is missing, a bad request that it is ill formed or would leave no enabled super administrator, a server error that the store cannot take it; an account without the route's permission is always forbidden |
| `AdminLaws.HasIsMayUse` | backend/internal/auth/context.go:49-58 | holding a permission means being a super administrator, or having a role with it or with the wildcard |
| `AdminLaws.StepFrame` | backend/internal/admin/users.go:54-449 | a request changes no account, role or assignment other than those it concerns |
| `AdminLaws.TargetFrame` | backend/internal/admin/users.go:107-449 | and of its target only what it is about: switching an account on or off leaves its rank, changing its rank leaves it on or off, filling a role leaves its name and kind |
| `AdminHandlers.Handler.GuardGrantable` | backend/internal/admin/admin.go:132-145 | blocks exactly when some permission is not held by the actor |
| `AdminHandlers.Handler.GuardSuperTarget` | backend/internal/admin/admin.go:150-159 | blocks exactly when a lesser account targets a super administrator |
| `AdminHandlers.Handler.GuardLastSuper` | backend/internal/admin/admin.go:169-180 | blocks exactly when the target is the one enabled super administrator left |
| `AdminHandlers.Handler.CreateUser` | backend/internal/admin/users.go:54-99 | the store moves by the step the run theorems are about and keeps their invariant, the answer names the first obstacle, and success means the request took effect exactly when its target was there |
| `AdminHandlers.Handler.UpdateUser` | backend/internal/admin/users.go:107-132 | as above, for the enabled state an update carries |
| `AdminHandlers.Handler.DeleteUser` | backend/internal/admin/users.go:134-152 | as above; assignments go with the account |
| `AdminHandlers.Handler.DisableUser` | backend/internal/admin/users.go:158-182 | as above; only disabling is subject to the last-super guard |
| `AdminHandlers.Handler.SetSuperAdmin` | backend/internal/admin/users.go:192-221 | as above; flag and built-in role change together |
| `AdminHandlers.Handler.AssignRole` | backend/internal/admin/users.go:385-418 | as above; the built-in role brings the flag |
| `AdminHandlers.Handler.RemoveRole` | backend/internal/admin/users.go:420-449 | as above; the built-in role takes the flag with it |
| `AdminHandlers.Handler.CreateRole` | backend/internal/admin/roles.go:31-44 | as above; names stay unique |
| `AdminHandlers.Handler.DeleteRole` | backend/internal/admin/roles.go:46-58 | as above; built-in roles stay |
| `AdminHandlers.Handler.SetRolePermissions` | backend/internal/admin/roles.go:64-89 | as above; all of the keys or none |
| `Admin.AnswerMeans` | backend/internal/admin/roles.go:46-89 | a request answered with success took effect if and only if its target was there: the account to change or promote, the role to fill, and for a deletion that the role is not built in; any other answer means nothing changed |
| `Admin.SuccessWithoutEffect` | backend/internal/admin/roles.go:46-58 | success without the target is success without any effect |
| `Admin.SuccessIsNotEffect` | backend/internal/admin/roles.go:46-58 | such answers are given: for deleting a built-in role, changing a missing account and emptying a missing role |
| `Krl.SixEligibleTicksAttempt` | backend/internal/api/server.go:453-499 | from any state of the loop, among any ticks of which six are eligible one attempts a distribution |
| `Krl.FiveCanBeQuiet` | backend/internal/api/server.go:463-499 | five eligible ticks can pass without one, so six is exact |
| `Krl.AttemptsIff` | backend/internal/api/server.go:463-499 | from the start of the loop, an eligible tick attempts a distribution if and only if the last complete push did not compute the same list or at least five eligible ticks have passed since; so a changed list goes out at once |
| `Krl.LastHashWasEarned` | backend/internal/api/server.go:463-499 | the remembered hash was computed by an earlier tick whose distribution missed no host |
| `Krl.IncompleteIsRetried` | backend/internal/api/server.go:463-499 | after an incomplete push the next eligible tick that computes the same hash tries again |
| `Krl.HostConverges` | backend/internal/api/server.go:453-499 | a host that becomes reachable has the settled list after six eligible ticks, whether or not the list changes meanwhile, unless a distribution outside the loop leaves another there |
| `Krl.QuietTickIff` | backend/internal/api/server.go:478-499 | from the start of the loop, a tick that finds nothing to do goes back to a complete push by a tick that computed the same list; it is right about a host if and only if the last distribution that touched the host since left that list or, when none did, the host held it after that push, which for a host reached means the push had sent it |
| `Krl.QuietTickCanBeWrong` | backend/internal/api/server.go:516-528 | three runs from the start of the loop in which a quiet tick is wrong: the list sent was not the list hashed, a partly distributed list was withdrawn, a distribution outside the loop brought another list |
| `Krl.KrlLoop.PushAside` | backend/internal/api/server.go:438-446 | a distribution outside the loop changes what hosts hold and not what the loop remembers |
| `Krl.HeldIffLeft` | backend/internal/api/server.go:516-601 | a host holds what the last distribution that touched it left, or what it held before |
| `Krl.KrlLoop.OnTick` | backend/internal/api/server.go:463-499 | the loop body takes the step those theorems are about, and reports an attempt exactly when it makes one |
| `KrlPool.AtMostEightInFlight` | backend/internal/api/server.go:531-593 | in every schedule at most eight pushes are in flight |
| `KrlPool.SlotIffFewerThanEight` | backend/internal/api/server.go:531-560 | in every schedule a waiting push gets a slot exactly while fewer than eight are in flight |
| `KrlPool.ReturnIsExact` | backend/internal/api/server.go:531-601 | on return every enrolled host has exactly one verdict, no other host has one, and the two counters count just those and add up to the enrolled hosts |
| `KrlPool.StepUsesOneUnit` | backend/internal/api/server.go:531-593 | every step anybody takes uses up exactly one unit of a bounded amount of work |
| `KrlPool.NoDeadlock` | backend/internal/api/server.go:531-593 | as long as the distribution has not returned some step is possible, so the slots cannot deadlock |
| `KrlPool.EveryScheduleReturns` | backend/internal/api/server.go:531-601 | every schedule returns after the same number of steps, none is longer, and a shorter one can always go on |
| `KrlPool.Firsts` | backend/internal/api/server.go:928-939 | the addresses to try are distinct and are exactly the non-empty ones given |
| `KrlPool.FirstsInOrder` | backend/internal/api/server.go:928-939 | they come in order of first appearance |
| `KrlPool.Dedupe` | backend/internal/api/server.go:928-939 | the map-and-slice loop yields those addresses in order of first appearance |
| `KrlPool.PushHost` | backend/internal/api/server.go:559-591 | a push succeeds exactly when a credential was issued and the first address that answers at all opens a session and reports success |
| `SshConfig.BuildSshConfig` | deploy/ansible-runner/app.py:249-294 | a config comes out exactly when every key host has a stored key, and it is the text of the stanzas the following rows are about |
| `SshMeaning.ReadsBack` | deploy/ansible-runner/app.py:249-294 | text made from stanzas of plain words, read by the line rules of ssh_config(5), gives back exactly those stanzas |
| `SshResolution.ConfigReadsBack` | deploy/ansible-runner/app.py:249-294 | the generated text parses to the stanzas it was generated from, jump settings without a final line feed |
| `SshResolution.CatchAllApplies` | deploy/ansible-runner/app.py:284-293 | the catch-all applies to exactly the hosts without a stanza of their own, and not to the jump alias |
| `SshResolution.OneStanzaPerTarget` | deploy/ansible-runner/app.py:249-294 | resolving the generated text by the host-pattern rules selects exactly one stanza for every host of the run |
| `SshResolution.EveryTargetServedIff` | deploy/ansible-runner/app.py:249-294 | with clean vaulted addresses, every host is served by exactly its own stanza if and only if no vaulted host shares its address with another and none is addressed like the jump alias |
| `AcceptedConfig.ServedIff` | deploy/ansible-runner/app.py:201-294 | for every accepted request: every host is served by exactly its own stanza if and only if no vaulted address is given twice, none ends in a line feed, and no host is addressed like the jump alias |
| `AcceptedConfig.WritableIff` | deploy/ansible-runner/app.py:201-294 | an accepted request gives a config that reads back if and only if no vaulted address ends in a line feed |
| `AcceptedConfig.ArgumentsIff` | deploy/ansible-runner/app.py:249-294 | every option read has one plain word for its value, which is what ssh takes, if and only if the request names a jump host |
| `SshResolution.BrokenAddressIsNotServed` | deploy/ansible-runner/app.py:264-280 | a vaulted host with a line feed in its address is never served by its stanza |
| `JumpSettings.ChoppedJumpParses` | deploy/ansible-runner/app.py:255-263 | a final line feed in the jump settings, which validation lets through, does not change what the config says |
| `SshResolution.OneStanzaForJump` | deploy/ansible-runner/app.py:249-294 | the jump alias resolves to its own stanza alone |
| `SshResolution.TargetMeans` | deploy/ansible-runner/app.py:249-294 | every host ends up with precisely what its auth method asked for, through the jump host: its vaulted key, a password only, or the Fleet certificate; it goes to the very address, and new host keys are accepted into the run's own file while changed ones are refused |
| `SshResolution.JumpMeans` | deploy/ansible-runner/app.py:249-294 | the jump alias reads back to the requested host, port and user, with the same host-key policy and file; the hop uses the Fleet certificate and jumps through nothing, so the chain cannot loop |
| `VaultKeys.KeyHostOffersOwnKey` | deploy/ansible-runner/app.py:421-429 | a key host's connection offers exactly one identity, and that file holds that host's own key |
| `VaultKeys.WriteVaultKeys` | deploy/ansible-runner/app.py:421-429 | each stored key lands in a file of its own under its host's address, and nothing else is mapped |
| `VaultKeys.KeyPathInjective` | deploy/ansible-runner/app.py:421-429 | two hosts never share a key file |
| `Targets.ValidateTargets` | deploy/ansible-runner/app.py:201-219 | a request is accepted exactly when every field passes, and otherwise the first problem in order is the one reported |
| `Allowlist.AddressOkIff` | deploy/ansible-runner/app.py:196-198 | the address pattern keeps to the allowlist if and only if the text does not end in a line feed, because the end anchor also matches before a final one |
| `Allowlist.FinalLineFeedPasses` | deploy/ansible-runner/app.py:196-198 | an address or a name with one final line feed passes although it is not on the allowlist |
| `Targets.HostPortRoundTrip` | deploy/ansible-runner/app.py:222-229 | host and port come back from the text naming both, whatever the host looks like |
| `Targets.HostAloneIff` | deploy/ansible-runner/app.py:222-229 | a text stands for a host alone if and only if it is not some host, a colon and a number |
| `Targets.LiteralIsCut` | deploy/ansible-runner/app.py:222-229 | an IPv6 literal ending in a decimal group loses that group to the port |
| `Inventory.QuoteRoundTrip` | deploy/ansible-runner/app.py:297-299 | for every string, quoting and then splitting as a shell does gives one word, the string itself |
| `Inventory.EscapedRead` | deploy/ansible-runner/app.py:297-299 | nothing in the escaped text ends the quotes |
| `Inventory.EscapeStep` | deploy/ansible-runner/app.py:297-299 | the two successive replacement passes amount to escaping character by character |
| `Inventory.BuildEntry` | deploy/ansible-runner/app.py:302-338 | the appended pieces make up the line of the host's fields |
| `Inventory.BuildInventory` | deploy/ansible-runner/app.py:302-344 | the file is the group header, one entry per host in order, then the group variables |
| `AcceptedInventory.EntryWordsIff` | deploy/ansible-runner/app.py:302-338 | an accepted host's entry splits into shell words that are exactly that host's values, passwords of any characters included, if and only if no line feed got through in its name, address or user |
| `AcceptedInventory.InventoryReadsBackIff` | deploy/ansible-runner/app.py:302-344 | for accepted hosts, cut into lines where Python cuts them, the file gives every host its own values if and only if no name, address or user ends in a line feed and no written password contains a line end |
| `AcceptedInventory.EntrySurvivesIff` | deploy/ansible-runner/app.py:311-314 | the first line of an accepted host's entry carries the host's values under exactly that condition on the host |
| `AcceptedInventory.PasswordArrivesIff` | deploy/ansible-runner/app.py:313-314 | a written password arrives with its host as itself if and only if, besides, the reader's evaluation of literals leaves it alone |
| `AcceptedInventory.FileReadsBackIff` | deploy/ansible-runner/app.py:302-344 | the file's lines are exactly the generated ones, the group variables included, under the same condition |
| `AcceptedInventory.AcceptedNameBreaks` | deploy/ansible-runner/app.py:196-207 | a host named with a final line feed is accepted, and its entry breaks after that name |
| `AcceptedInventory.AcceptedHostsOk` | deploy/ansible-runner/app.py:201-219 | the hosts of every accepted request are among those these results speak of |
| `InventoryVars.HostGets` | deploy/ansible-runner/app.py:302-338 | host i's line of the file names that host and assigns exactly its variables by auth method: address, port and user always, a password or key path for its vaulted kind, its own local port behind a tunnel, and sudo on for managed and off for vaulted hosts when the run uses it |
| `InventoryVars.AllGet` | deploy/ansible-runner/app.py:332-344 | after the hosts the file gives all of them exactly the variables of the run: its ssh_config, the proxy command through the jump host, and the sudo method when used |
| `DocSections.SectionsCoverDocument` | backend/internal/assistant/docs.go:92-121 | every visible character of a document outside its headings is in exactly one indexed section, in the document's order |
| `DocSections.ChunkHeadings` | backend/internal/assistant/docs.go:106-118 | one chunk per heading in order, after one under the document's title exactly when the document does not open with a heading |
| `DocIndex.SplitDocSections` | backend/internal/assistant/docs.go:92-121 | the line loop yields exactly the non-blank chunks, each with its heading, text and naive term counts |
| `DocIndex.IndexSection` | backend/internal/assistant/docs.go:97-102 | term counts are the naive counts of the heading's and text's tokens |
| `DocIndex.LengthIsTotal` | backend/internal/assistant/docs.go:97-102 | a section's length is the sum of its term counts |
| `DocIndex.Index.Build` | backend/internal/assistant/docs.go:123-138 | the built index holds every document's sections, and its frequencies and average length agree with the naive definitions |
| `DocIndex.Index.CountAll` | backend/internal/assistant/docs.go:128-134 | one pass over the sections in any term order fills the frequencies with the naive counts |
| `DocIndex.FreqIsNaive` | backend/internal/assistant/docs.go:128-134 | an indexed frequency is the number of document sections whose own text contains the term |
| `DocIndex.DocFreqBounds` | backend/internal/assistant/docs.go:128-134 | a frequency never exceeds the number of sections and is zero exactly for absent terms |
| `DocSearch.IdfPositive` | backend/internal/assistant/docs.go:164-165 | hence every idf is positive |
| `DocSearch.ScorePositiveIff` | backend/internal/assistant/docs.go:155-171 | a section scores above zero if and only if it shares a term with the query |
| `DocSearch.Hits` | backend/internal/assistant/docs.go:155-171 | the kept sections are exactly those sharing a term with the query, in order |
| `DocSearch.StableSort` | backend/internal/assistant/docs.go:172 | the sort is by falling score, equal scores keep their order, and nothing is lost or invented |
| `DocSearch.Search` | backend/internal/assistant/docs.go:142-181 | the result is ranked, all of it matches, there are k unless fewer match, and no matching section left out outranks one returned; the next rows say what ranks higher |
| `DocRanking.RarerComesFirst` | backend/internal/assistant/docs.go:142-181 | of two sections that differ only in which of two query terms they have, the one with the rarer term comes first in every search result |
| `DocRanking.DenserOrShorterComesFirst` | backend/internal/assistant/docs.go:142-181 | a section that has every query term at least as often, is no longer, and is better in one of these comes first in every search result |
| `DocRanking.IdfFalls` | backend/internal/assistant/docs.go:164-165 | a term counts for less the more sections have it |
| `DocRanking.TermScoreRises` | backend/internal/assistant/docs.go:158-168 | a term counts for more the more often it occurs and the shorter the section |
| `DocRanking.TermScoreFalls` | backend/internal/assistant/docs.go:158-168 | and for less the more sections have it |
| `DocRanking.Calibration` | backend/internal/assistant/docs.go:149-168 | one occurrence in a section of average length counts the inverse document frequency, in one twice as long 20/29 of it, and no number of occurrences reaches two and a half times it |
| `Payload.EncodeToolResult` | backend/internal/assistant/payload.go:31-51 | a result is sent whole exactly when it fits; anything else that is too large becomes a notice; a map that does not fit is cut until it fits, or to the five-row floor, or, without a list, to a notice, and only what then cannot be encoded is a failure |
| `Payload.TrimLargestList` | backend/internal/assistant/payload.go:57-90 | the halving loop on a copy stops at the first count that fits or at the floor, and the caller's map keeps its contents |
| `Payload.LargestList` | backend/internal/assistant/payload.go:95-118 | the list chosen is the longest, ties going to the key that sorts first |
| `Payload.RowsKeptIff` | backend/internal/assistant/payload.go:74-85 | the trimmed list is a prefix of the original with matching counts if and only if its key is not one the trimming writes itself; other fields stay |
| `Payload.NoteListIsLost` | backend/internal/assistant/payload.go:74-85 | a list under the key note is lost however short it is trimmed |
| `Payload.FloorHolds` | backend/internal/assistant/payload.go:71-89 | never fewer than five rows, or all of them when there are no more than five |
| `Payload.AtLeastHalf` | backend/internal/assistant/payload.go:71-89 | if encoded size grows with the prefix, the result is at the floor or fits with at least half the rows, rounded down, of any prefix that fits; without rounding exactly unless that prefix is the whole list and its length is odd |
| `AccessPolicy.Evaluate` | backend/internal/accesspolicy/engine.go:55-70 | a denial comes out exactly when some rule matches an account that is not a super administrator, and it names the first such rule and gives its message or one made from its name |
| `AccessPolicy.CheckRule` | backend/internal/accesspolicy/engine.go:72-90 | the early-return matcher decides the declarative meaning of a rule |
| `AccessPolicy.MatchesUnlessSpared` | backend/internal/accesspolicy/engine.go:72-117 | a rule matches if and only if it exempts none of the subject's roles and none of its lists, days or hours is for others |
| `AccessPolicy.CheckTime` | backend/internal/accesspolicy/engine.go:94-117 | likewise for day lists and time windows |
| `AccessPolicy.AnyOverlap` | backend/internal/accesspolicy/engine.go:119-128 | found exactly when the lists share an element |
| `AccessPolicy.AnyOverlapFold` | backend/internal/accesspolicy/engine.go:130-146 | found exactly when they share one up to case folding |
| `AccessPolicy.WindowIsModular` | backend/internal/accesspolicy/engine.go:107-116 | the intra-day check is membership in a circular interval of minutes |
| `AccessPolicy.SwappedWindowsAreComplements` | backend/internal/accesspolicy/engine.go:107-116 | swapping start and end gives exactly the other minutes |
| `AccessPolicy.MoreRulesDenyMore` | backend/internal/accesspolicy/engine.go:55-70 | the verdict does not depend on the rules' order or repetition, and more rules never turn a denial into an allowance |
| `AccessPolicy.MoreTagsDenyMore` | backend/internal/accesspolicy/engine.go:72-90 | further host tags never turn a denial into an allowance |
| `AccessPolicy.MoreRolesDenyLess` | backend/internal/accesspolicy/engine.go:72-90 | gaining roles never turns an allowance into a denial |
| `Drain.NeverNegative` | backend/cmd/fleetd/main.go:252-279 | in every interleaving of Accept with repeated and concurrent Close calls no counter goes below zero and no connection is released twice |
| `Drain.ClosedIsReleasedOnce` | backend/cmd/fleetd/main.go:272-279 | once every Close call on a connection has come back it has been released exactly once |
| `Drain.ZeroCountIff` | backend/cmd/fleetd/main.go:215-218 | a zero counter means every connection whose Accept has returned is closed, and every accepted connection is if and only if no Accept is under way |
| `Drain.EmptyGroupIff` | backend/cmd/fleetd/main.go:221-224 | an empty wait group means every connection it was told of is closed and released, and every accepted one is closed if and only if there is none it was not told of |
| `Drain.GroupTracks` | backend/cmd/fleetd/main.go:242-279 | the wait group is empty if and only if every connection handed to it has been released |
| `Drain.ZeroCountDuringAccept` | backend/cmd/fleetd/main.go:252-260 | while an Accept is between the wait group and the counter, the counter reads zero over an open connection |
| `Drain.DrainedForGood` | backend/cmd/fleetd/main.go:200-203 | once the listener is closed and no Accept is under way, completion holds for the rest of the run |
| `Drain.AwaitConnDrain` | backend/cmd/fleetd/main.go:215-240 | in every interleaving with the waiter, completion is reported on entry only when every connection whose Accept has returned is closed and later only when every one in the wait group is; that is every connection exactly when no Accept stands in between, and for good once the listener is closed; giving up means something tracked was there at every look |

## Left out

- Proposing is one atomic step; preparing the parameters and reading the policy are its inputs.
- Audit log entries, notifications, outcome texts and the reread of a row after a call: they do not feed back into the protocol.
- HTTP decoding, routing and response bodies; permission middleware is the `Admitted` condition of a request.
- Concurrency between administration handlers: each is one atomic step over a store without errors of its own.
- Password rules, e-mail and profile fields of accounts, and session revocation when an account changes.
- Signature, digest and version checks of a bundle: their outcome is an input of the pipeline.
- The updater's busy gate and the status file: one pipeline at a time, its status held in memory.
- UpdaterMachine.Machine.Swap: speaks of the instants before a rollback starts and says nothing about those of the rollback itself.
- UpdaterMachine.Machine.SelfUpdate: says which image the detached helper is handed and not what it does with it, since that comes after the pipeline has ended.
- UpdaterMachine.Machine.LoadImages: what loading yields is promised only with one image per component under its own name, since a later image under the same name replaces an earlier one.
- The order in which sidecars and rollback services are named in one compose run.
- Docker.Daemon.WaitHealthy: the polling loop and its timeout are one step that succeeds or fails.
- The record of a host's last pushed list, and certificate issuing for a push.
- SSH tunnels for hosts behind an API tunnel: only their local port numbers in the inventory are modelled.
- AcceptedInventory.PasswordArrivesIff: which texts the reader evaluates to something else is a parameter, since the literal syntax belongs to Ansible and Python.
- SshMeaning.ReadsBack: the reader takes the rest of a line as the value and has no quoting, `Match`, `Include` or multi-word arguments; `AcceptedConfig.ArgumentsIff` says when every value is one plain word, for which that makes no difference.
- The heading and word patterns of documents are parameters, and anchors are left out: slugs are a chain of text replacements.
- DocSearch.ScorePositiveIff: scores are real numbers and the logarithm is any function positive above one, and strictly increasing where terms are compared by rarity; floating-point rounding is not modelled.
- Payload.EncodeToolResult: JSON text is represented by its fields and an arbitrary encoded size.
- AccessPolicy.AnyOverlapFold: case folding is an arbitrary function on strings.
- Drain.AwaitConnDrain: the ticker that only logs progress is left out.
