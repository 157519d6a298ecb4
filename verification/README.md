# Verification of the agent control plane

A Dafny model of the parts of the control plane that hold real state or algorithmic content, with
machine-checked proofs about them. `dafny verify dfyconfig.toml` checks the whole project.

Functions and predicates describe what one call does to a state; classes and methods follow the
program's own loops and field updates and are proved to compute exactly those functions; lemmas state
what holds over all inputs, all runs and all orders in which a Go map may be visited. For each
operation some of them say what it does on the fields of its inputs, in words of their own.

| files | part of the system |
|---|---|
| `ReleaseState`, `ReleaseQueries`, `ReleaseProtocol`, `ReleaseGuarantees`, `ReleaseLaws`, `ReleaseExamples`, `ReleaseService` | the release commands as a saga over package service and agent registry: every call may fail, failures of compensations are ignored |
| `CanaryHash`, `Routing` | which version a request is routed to, the FNV-1a hash and the canary decision |
| `ReleasePolicy`, `Approvals` | the release policy's verdict, and interleaved commands that present approvals |
| `JsonMerge`, `Redaction` | merging a strategies patch in place; redacting logged payloads |
| `Permission`, `Intake`, `Conversation` | the sorted policy list, the intake policies, the message store |
| `Snippet`, `Scoring`, `Knowledge`, `CrossGroup` | the search pipeline through two services |
| `ExportedTools`, `Usage` | keeping the tool catalog in step with a draft; the usage report of a service connection |
| `Options`, `Text`, `Sorting` | options, Go's string operations, stable sorting |

Conventions. Strings are sequences of code points; where the program works on UTF-8 bytes (offsets,
lengths, hashing) the widths are spelled out. Case folding, regular expressions and e-mail or number
masks are parameters, so the results hold for any such function unless a condition is named. Where Go
ranges over a map, the model takes the order as an input or picks an arbitrary next key. Ids, clocks and
the outcome of calls to other systems are inputs.

Where a property one would expect does not hold of the code, the model keeps the code's behaviour and a
lemma says exactly when the property holds:

- Undoing a failed rollback restores the former state only when every pointer that was switched was on the
  rolled-back version (`ReleaseGuarantees.CompensationRestoresIff`, `AssetCompensationRestoresIff`).
- An evaluation result that passes a canary under live traffic, publishing over a version that a pointer
  already names, and patching a pointer to a version that is not runnable break the pointer invariant
  (`ReleaseGuarantees.EvalKeepsSafeIff`, `PublishKeepsSafeIff`, `ReleaseProtocol.PatchKeepsSafeIff`).
- The strategies merge is the merge patch of RFC 7396 exactly for patches without nulls
  (`JsonMerge.MergeIsMergePatchIff`).
- Redaction copies unread the code and the message of a tool error, and every value of a type it does not
  name, such as a list of strings (`Redaction.SafeIsCleanIff`).
- A further role may turn "allowed" into "approval required" (`Permission.MoreRolesNeedApprovalIff`).
- A shared intake policy and a tenant's own one of the same id, priority and time are told apart by map
  order only (`Intake.OrderMattersIff`).
- A snippet can miss the query when lower-casing changes byte widths (`Snippet.ShowsOccurrenceIff`).
- A base's document count goes stale when a document moves to another base, and is wrong after a document
  of another tenant was ingested into it (`Knowledge.CountsStayExactIff`).
- Releases made at the same time can tie as the latest canary or stable one; the order in which the release
  map is listed then decides the route (`Routing.RoutesDifferIff`).
- Share policies whose lists hold only blank ids open every base (`CrossGroup.FilterIsExactIff`).
- Removing an exported tool that has only a shared manifest disables the shared one
  (`ExportedTools.SharedEntryStaysIff`).
- A usage report that lists an own and a shared provider, or tool, of one id counts their evidence twice
  (`Usage.SummaryIsSumOfPartsIff`).

Each has a lemma with an input on which it fails: `ReleaseExamples` for the first two,
`JsonMerge.NullIsStored`, `Redaction.ErrorMessageIsLogged` and `PolicyIdIsShown`,
`Permission.MoreRolesMayNeedApproval`, `Intake.OrderCanMatter`, `Snippet.WidthsMatter`,
`Knowledge.MovingLosesCount` and `OtherTenantLosesCount`, `Routing.TwoCanariesTie`,
`CrossGroup.BlankListOpensEverything`, `ExportedTools.SharedEntryIsLost` and `Usage.OwnAndSharedCountTwice`.

## Model

| member | source | states |
|---|---|---|
| `ReleaseProtocol.RunKeepsPointersRunnable` | internal/server/commands_agent_package.go:906-966 | in every run of canary, stable, activate and rollback commands, and of creating, enabling, disabling and deleting assets, whatever calls fail (ignored compensations included), every set pointer of every tenant names a version with no release or a canary or stable one |
| `ReleaseProtocol.StepKeepsSafe` | internal/server/commands_agent_package.go:906-966 | each single command keeps the pointers on versions of the given good statuses, for every pattern of faults |
| `ReleaseProtocol.RollbackKeepsSafe` | internal/server/commands_agent_package.go:924-962 | a rollback keeps the pointers safe on every path: refused, switched, compensated, half-compensated |
| `ReleaseProtocol.ActivateKeepsSafe` | internal/server/handlers_agent_subresource_versions.go:515-530 | activating a stable version keeps the pointers safe even when the registry call fails after the asset was moved |
| `ReleaseProtocol.PatchKeepsSafeIff` | internal/agentdef/package/service.go:406-448 | patching an asset keeps the pointers safe if and only if every version it writes is settled: none at all, or one with no release or a good one |
| `ReleaseExamples.PatchCanBreak` | internal/server/handlers_agents.go:192-222 | from nothing: publish, create; then patching the pointer to the published version breaks the invariant |
| `ReleaseProtocol.CreateKeepsSafe` | internal/agentdef/package/service.go:345-378 | creating an asset, also over a deleted one, keeps the pointers safe |
| `ReleaseGuarantees.RollbackSucceeds` | internal/server/commands_agent_package.go:924-966 | a rollback that succeeds marks exactly that release, leaves no pointer of the agent on its version, and moves active pointers to one other stable version none is later than |
| `ReleaseGuarantees.SwitchSucceeds` | internal/server/commands_agent_package.go:909-920 | a stable command that succeeds leaves every pointer of the agent on that version and that release stable |
| `ReleaseGuarantees.ActivateSucceeds` | internal/server/handlers_agent_subresource_versions.go:515-530 | an activation that succeeds leaves every pointer on that version and changes no release |
| `ReleaseGuarantees.CompensationRestoresIff` | internal/server/commands_agent_package.go:952-962 | when only the mark fails, the compensations restore the former state if and only if both asset pointers and the tenant's own default were on the rolled-back version and the asset was active or disabled |
| `ReleaseGuarantees.AssetCompensationRestoresIff` | internal/server/commands_agent_package.go:946-949 | when the registry call fails, the compensation restores it if and only if both asset pointers were on that version and the asset was active or disabled |
| `ReleaseExamples.CompensationCanLose` | internal/server/commands_agent_package.go:946-962 | two stable versions and a split asset: either compensation loses the pointer on the older version |
| `ReleaseGuarantees.StepTouchesOnlyItsAgent` | internal/server/commands_agent_package.go:906-966 | no command changes a release, asset or default of another agent or tenant |
| `ReleaseGuarantees.EvalKeepsSafeIff` | internal/agentdef/package/service.go:1022-1064 | an evaluation result keeps the pointers safe if and only if it does not pass a canary that a pointer names |
| `ReleaseExamples.EvalCanBreak` | internal/server/commands_eval.go:102-102 | from nothing: publish, canary, create, patch to the canary; then passing its evaluation breaks the invariant |
| `ReleaseGuarantees.PublishKeepsSafeIff` | internal/agentdef/package/service.go:881-965 | publishing keeps version uniqueness, and keeps the pointers safe if and only if none names the published version |
| `ReleaseExamples.PublishCanBreak` | internal/agentdef/package/service.go:406-448 | from nothing: create, patch to a version to come; then publishing it breaks the invariant |
| `ReleaseGuarantees.GuardedRunKeepsPointers` | internal/server/commands_agent_package.go:906-966 | in every run of canary, stable, rollback, activate, evaluation, publish, create and patch commands that publishes over no pointed version, patches to settled versions only and passes no pointed canary, pointers stay on good releases |
| `ReleaseGuarantees.RunKeepsPointersStable` | internal/server/commands_agent_package.go:906-966 | pointers that start on stable releases stay on stable ones in every run of those commands under the first two guards; evaluation results need none |
| `ReleaseGuarantees.RolledBackForGood` | internal/agentdef/package/service.go:1952-2004 | no command of any kind revives a rolled-back release |
| `ReleaseLaws.StableNeedsPass` | internal/agentdef/package/service.go:1004-1048 | in every run that starts without evaluation results a stable command succeeds only if some step recorded that the evaluation of that release passed and no later step recorded that it failed |
| `ReleaseLaws.LastResultCounts` | internal/agentdef/package/service.go:1022-1048 | after any run a release counts as passed if and only if a step passed it, while it was published, canary, evaluated, reviewed or stable, and no later step failed it |
| `ReleaseLaws.PassedBecomesStable` | internal/server/commands_agent_package.go:909-920 | after any run, with no call failing, a stable command succeeds on exactly the evaluated and canary releases whose last result was a pass |
| `ReleaseLaws.StableSucceedsIff` | internal/agentdef/package/service.go:1004-1020 | with every call that may fail: it succeeds if and only if none does and the release is the tenant's, evaluated or canary, passed, and known to the registry for the tenant or for all |
| `ReleaseLaws.CanarySucceedsIff` | internal/agentdef/package/service.go:985-1002 | a canary command succeeds if and only if the release is the tenant's and published, evaluated or reviewed; it sets the status and a positive percentage and nothing else |
| `ReleaseLaws.ActivateSucceedsIff` | internal/server/handlers_agent_subresource_versions.go:515-530 | an activation succeeds if and only if the agent has a stable release of that version, which the registry knows, and no call fails |
| `ReleaseLaws.RollbackSucceedsIff` | internal/server/commands_agent_package.go:924-966 | a rollback succeeds if and only if the release is the tenant's and neither draft nor rolled back and, where a pointer names it, another stable release is there and no switching call fails |
| `ReleaseLaws.RunKeepsDefined` | internal/server/commands_agent_package.go:70-92 | every release of a run stays known to the registry |
| `ReleaseQueries.FallbackIsLatest` | internal/server/commands_agent_package.go:998-1015 | the fallback of a rollback is a latest stable release of the agent other than the one rolled back, and there is none only if there is no such release |
| `ReleaseQueries.LatestIsMaximal` | internal/server/agent_routing.go:133-150 | the scan finds a matching release none of the matching ones is later than, or nothing if none matches |
| `ReleaseQueries.FallbackStableVersion` | internal/server/commands_agent_package.go:998-1015 | the loop with its zero-time test computes that choice |
| `ReleaseQueries.LatestRelease` | internal/server/agent_routing.go:133-150 | the loop keeping the best release so far computes that choice |
| `ReleaseState.AssetKeepsSafe` | internal/agentdef/package/service.go:460-484 | moving both asset pointers to a settled version keeps every pointer safe and changes no release |
| `ReleaseState.DefaultKeepsSafe` | internal/agentdef/loader/loader.go:161-190 | moving the registry default does the same, also for tenants that fall back on the shared default |
| `ReleaseState.StatusKeepsSafe` | internal/agentdef/package/service.go:1952-2004 | changing one release's status is safe when the new status is good or nothing points at it |
| `ReleaseService.PackageService.EnsureAgentAssetVersion` | internal/agentdef/package/service.go:460-484 | the method sets both asset pointers and revives a deleted asset; a failure may leave a missing asset created without versions, and nothing else |
| `ReleaseService.PackageService.PatchAgentAsset` | internal/agentdef/package/service.go:406-448 | the method writes the versions and the status given, the versions unchecked |
| `ReleaseService.PackageService.CreateAgentAsset` | internal/agentdef/package/service.go:345-378 | the method creates an asset without versions unless one is there that is not deleted |
| `ReleaseService.PackageService.MarkEvalResult` | internal/agentdef/package/service.go:1022-1064 | the method records the result given, and a pass also turns a release that is not stable evaluated, or is refused |
| `ReleaseService.PackageService.PublishDraft` | internal/agentdef/package/service.go:881-965 | the loop over the stored releases refuses a version the agent has already; otherwise the release is stored as published |
| `ReleaseService.ReleaseCommands.MarkStable` | internal/server/commands_agent_package.go:909-920 | the method, call by call on the two services, does what the protocol says, for every fault |
| `ReleaseService.ReleaseCommands.Activate` | internal/server/handlers_agent_subresource_versions.go:515-530 | the same for activation |
| `ReleaseService.ReleaseCommands.Rollback` | internal/server/commands_agent_package.go:921-962 | the same for rollback with its compensations |
| `Routing.DefaultRouteIsSound` | internal/server/agent_routing.go:27-78 | while pointers are safe, routing without an explicit version fails only for a disabled agent, resolves to a pointer, the latest stable or the latest canary, and reports the release of exactly that version whenever there is one |
| `Routing.ServedInOrder` | internal/server/agent_routing.go:27-105 | a request without version that no canary takes is served the first that is set of the asset's active version, its default version, the tenant's and the shared registry default, else the latest stable release by time published or made, else nothing; with the reason of each |
| `Routing.OnlyEnabledServe` | internal/server/agent_routing.go:107-131 | an agent whose asset is neither active nor without status serves no version, named or not; any other serves what is found while pointers are safe |
| `Routing.CanaryTakesItsShare` | internal/server/agent_routing.go:152-198 | a request goes to the latest canary found if and only if its caller is in the share: by percentage and the FNV-1a hash of tenant, agent, package and caller |
| `Routing.RolledBackIsNeverServed` | internal/server/agent_routing.go:27-78 | after every such guarded run no request without an explicit version is routed to a rolled-back version |
| `Routing.RouteFollowsSwitch` | internal/server/commands_agent_package.go:909-920 | after a successful stable command every request the canary does not take is served that version |
| `Routing.RouteFollowsRollback` | internal/server/commands_agent_package.go:924-966 | after a successful rollback of an active version every such request is served one latest other stable version |
| `Routing.ExplicitRouteIsExact` | internal/server/agent_routing.go:107-131 | an explicit version is accepted if and only if the agent is enabled and the version has no release or a canary or stable one |
| `Routing.ExplicitRouteShows` | internal/server/agent_routing.go:27-38 | an accepted explicit version is reported with its release and never as a canary |
| `Routing.RouteForgetsListing` | internal/server/agent_routing.go:133-150 | the route does not depend on the two listings of the releases unless releases tie as latest in a way it reads |
| `Routing.RoutesDifferIff` | internal/server/agent_routing.go:27-78 | two orders of the listing give two routes if and only if the request names no version and two releases tie as the latest canary, one of which takes it, or, with no pointer set and no canary taking it, as the latest stable release |
| `Routing.TwoCanariesTie` | internal/server/agent_routing.go:133-150 | two canaries for everybody made at the same time: the listing decides every request |
| `Routing.ResolveRunnableAgentTarget` | internal/server/agent_routing.go:27-78 | the method that fills in the route field by field computes the decision the lemmas are about |
| `CanaryHash.StepIsBijective` | internal/server/agent_routing.go:191-198 | one xor-and-multiply step modulo 2^32 is a bijection, with its inverse given |
| `CanaryHash.KeysStayApart` | internal/server/agent_routing.go:191-198 | appending a common suffix to two keys leaves their 32-bit states equal if and only if they were equal before |
| `CanaryHash.StablePercent` | internal/server/agent_routing.go:191-198 | the loop computes the bucket of the bytes, always in 0..99 |
| `CanaryHash.TestVectors` | internal/server/agent_routing.go:191-198 | the hash takes the published FNV-1a values for the empty text and for the text a |
| `CanaryHash.RunesAreUtf8` | internal/server/agent_routing.go:193-193 | each character is written in the fewest UTF-8 bytes and can be read back |
| `CanaryHash.AssignedInOrder` | internal/server/agent_routing.go:164-189 | a caller is known by the first that is set of user, caller, thread, conversation and current thread, then by the external task, the request, the trace |
| `CanaryHash.RoutingIsMonotone` | internal/server/agent_routing.go:152-162 | a caller routed at percent p is routed at every q >= p; none at 0, all at 100 |
| `CanaryHash.RoutingIsSticky` | internal/server/agent_routing.go:164-189 | requests of one user, or of one caller without user, are routed alike whatever their trace, task or conversation |
| `Approvals.ApprovalsAreSpentOnce` | internal/server/commands_approval.go:57-83 | in every interleaving, other clients of the service among it, at most one command acts on an approval, it acts for the resource and action the approval covers, and a release approval is used if and only if a command acts on it |
| `Approvals.ConsumedOnce` | internal/governance/approval/service.go:88-106 | whatever the client, a release command or another, an approval is consumed by at most one call of a run |
| `Approvals.OthersSpendNoRelease` | internal/server/commands_tool_artifacts.go:46-58 | tool calls, like share policies and hook bindings, consume no approval that a release could use |
| `Approvals.ActingWasApproved` | internal/server/commands_approval.go:43-55 | in every run that starts without approved or used approvals, a command acts on an approval only after it was approved for the approval's tenant |
| `Approvals.OnlyConsumeSpends` | internal/server/commands_agent_package.go:881-905 | validation, policy evaluation, plugin checks and requests spend no approval, so a command they stop has consumed nothing |
| `Approvals.ConsumeSpendsOne` | internal/server/commands_approval.go:71-83 | the consume step spends nothing, or one approved, unexpired approval made for this resource and action, and then this command acts |
| `Approvals.ActsOnServingApprovalIff` | internal/governance/approval/service.go:179-193 | a step makes a command act on an approval if and only if it is the consume step of a command past policy and plugin that names it, and the approval is approved, not expired, of the command's tenant, resource and action |
| `Approvals.PresentedIsChecked` | internal/server/commands_approval.go:57-69 | a received command is stopped if and only if it names an approval that does not serve it now |
| `Approvals.ConsumeMoves` | internal/server/commands_approval.go:71-83 | a command without approval acts, one with an approval acts if that still serves it and is stopped otherwise |
| `Approvals.OtherConsumes` | internal/governance/approval/service.go:88-106 | another client's call uses up an approved, unexpired approval for exactly what it asks, or nothing |
| `Approvals.RequestIsForCommand` | internal/server/commands_approval.go:85-117 | a command sent for an approval leaves a pending request that would serve exactly this command |
| `Approvals.VerdictMoves` | internal/server/commands_agent_package.go:881-895 | the verdict moves a checked command on or stops it, and only one that needs approval opens a request |
| `Approvals.PluginStopsIff` | internal/server/commands_agent_package.go:896-900 | the plugin check stops exactly canary and stable commands on packages that it does not accept |
| `Approvals.ServiceSteps` | internal/governance/approval/service.go:53-86 | requests are opened pending, and resolving settles a pending request of the tenant |
| `Approvals.ActsOnlyIfAllowed` | internal/server/commands_agent_package.go:881-905 | in every interleaving a command acts only after the policy allowed it, as a command with an approval if and only if it acts on one, and after its plugin was accepted where plugins are checked |
| `Approvals.StoppedForGood` | internal/server/commands_policy.go:94-113 | a stopped command stays stopped and an acting one acting |
| `Approvals.ApprovedIsNotAskedAgain` | internal/server/commands_approval.go:85-117 | a command whose approval was valid is never answered with a new approval request |
| `Approvals.ApprovalService.Consume` | internal/governance/approval/service.go:88-106 | the method marks exactly the approval used that is valid for the caller's scope, or changes nothing |
| `Approvals.ApprovalService.Validate` | internal/governance/approval/service.go:108-119 | the early returns accept exactly an approval that is approved, not expired, and for the scope given field by field |
| `ReleasePolicy.ApprovalOnlyHelps` | internal/policy/engine/release.go:20-61 | with an approval no approval is asked for, and no other verdict changes |
| `ReleasePolicy.VerdictIs` | internal/policy/engine/release.go:20-66 | denied if and only if looked at and forbidden; sent for approval if and only if without one and outside the window, or allowed only with one; for percentages, statuses and reasons as given |
| `JsonMerge.MergeIsMergePatchIff` | internal/server/commands_agent_package.go:394-405 | for every base the merge is MergePatch of section 2 of RFC 7396 if and only if no member of the patch, at any object depth, is null |
| `JsonMerge.NullIsStored` | internal/server/commands_agent_package.go:394-405 | a null in the patch is stored in the base |
| `JsonMerge.NullWouldRemove` | internal/server/commands_agent_package.go:394-405 | where MergePatch of RFC 7396 removes the member |
| `JsonMerge.MergedAtPath` | internal/server/commands_agent_package.go:394-405 | at every path: what is not an object in the patch is stored as it is, nulls included; where the patch says nothing the base stays; nothing comes from anywhere else |
| `JsonMerge.MergeIdempotent` | internal/server/commands_agent_package.go:394-405 | merging the same patch twice is merging it once, nulls included |
| `JsonMerge.MergeKeys` | internal/server/commands_agent_package.go:394-405 | the loop in memory, visiting the patch's keys in any order, leaves the base with exactly the merged value and the patch as it was |
| `JsonMerge.MergeObjects` | internal/server/commands_agent_package.go:394-405 | for disjoint trees the in-place merge terminates with that value |
| `Redaction.SafeIsCleanIff` | internal/server/handlers_runs.go:1878-1918 | redaction leaves no sensitive key unmarked and no sensitive text if and only if, outside such keys, no tool error has a sensitive code or message and no value of a type it does not name shows anything sensitive |
| `Redaction.ErrorMessageIsLogged` | internal/server/handlers_runs.go:1900-1912 | a tool error with a key in its message is logged with the key |
| `Redaction.OpaqueTextIsShown` | internal/server/handlers_runs.go:1914-1915 | a list of strings of a type of its own is shown as it is, sensitive or not |
| `Redaction.PolicyIdIsShown` | internal/crossgroup/service.go:203-203 | with the program's own tests: the trace of a cross-group search shows a share policy id that looks like a key |
| `Redaction.SafeJson` | internal/server/handlers_runs.go:1838-1918 | JSON payloads always come out clean, and are unchanged if and only if they were clean |
| `Redaction.SafeIdempotent` | internal/server/handlers_runs.go:1838-1918 | redacting twice is redacting once, for every value |
| `Redaction.SafeOnlyReplaces` | internal/server/handlers_runs.go:1838-1918 | keys and lengths stay everywhere outside replaced values, and only sensitive values are replaced |
| `Redaction.LoggedPayloadsAreClean` | internal/server/handlers_runs.go:1914-1945 | the three results together for the program's own key and text tests |
| `Redaction.SensitiveKeyIff` | internal/server/handlers_runs.go:1920-1930 | a key is sensitive if and only if it spells one of the ten names, case, blanks around, underscores and hyphens apart |
| `Redaction.SensitiveTextIff` | internal/server/handlers_runs.go:1932-1945 | an ASCII text is sensitive if and only if it is long enough and starts like a key, is a long enough bearer token, or holds the head of a private key |
| `Redaction.SecretsReadRedacted` | internal/server/handlers_runs.go:1838-1851 | what is under a sensitive key, and a sensitive text, reads [redacted] |
| `Redaction.SafeValue` | internal/server/handlers_runs.go:1878-1918 | the type switch with its loops computes the redaction, keys visited in any order; its default branch hands any other value through |
| `Redaction.SafePayload` | internal/server/handlers_runs.go:1838-1851 | the map loop computes it for payloads, nil included |
| `Redaction.SafeInMemory` | internal/server/handlers_runs.go:1838-1851 | on maps in memory, shared ones included, it builds the redacted value out of new maps only and leaves every map it was given as it was |
| `Conversation.RunKeepsIndexed` | internal/conversation/memory.go:108-134 | after any appends each message is stored under its key and in exactly the one order list of its thread, once; stored records never change |
| `Conversation.AppendIsExact` | internal/conversation/memory.go:108-134 | what an append answers in each case, and that only a new message changes the state |
| `Conversation.AppendStores` | internal/conversation/memory.go:108-134 | on the message's fields: what is stored under which key, and that a repetition is one of the same thread, text and speaker |
| `Conversation.AppendTwice` | internal/conversation/memory.go:108-134 | re-appending a stored message at any later time is a no-op |
| `Conversation.ListsAreThreads` | internal/conversation/memory.go:194-208 | for ids without NUL an order list belongs to exactly one tenant, conversation and thread |
| `Conversation.NulJoinsThreads` | internal/conversation/memory.go:194-208 | with NUL in ids two threads share one list |
| `Conversation.RecentIsLatest` | internal/conversation/memory.go:136-159 | recent messages are the thread's last ones in time order: the right number, each once, sorted, none left out is later |
| `Conversation.RecentByTime` | internal/conversation/memory.go:136-159 | for ids without NUL: messages of that tenant, conversation and thread, oldest first and by id at one time, at most the limit; others of the thread are sooner and left out only for the limit |
| `Conversation.RecentIsSuffix` | internal/conversation/memory.go:136-159 | a smaller limit gives a suffix of the answer for a larger one |
| `Conversation.RecentForgetsHistory` | internal/conversation/memory.go:136-159 | two histories that stored the same messages answer alike |
| `Conversation.InMemoryStore.AppendMessage` | internal/conversation/memory.go:108-134 | the method updates the two maps as the step function says |
| `Conversation.InMemoryStore.RecentMessages` | internal/conversation/memory.go:136-159 | copying the thread's keys, sorting them by their messages' times and cutting them yields the messages of the last entries of the thread's timeline, which `RecentIsLatest` characterizes |
| `Conversation.LastKeysAreRecent` | internal/conversation/memory.go:141-153 | sorting and cutting keys is sorting and cutting entries of time and key |
| `Permission.RunHoldsLastWrites` | internal/permission/service.go:54-77 | after any upserts the list is strictly sorted and holds exactly the last policy written per key |
| `Permission.TriedInOrder` | internal/permission/service.go:243-258 | policies come by tenant, group, kind of subject and subject |
| `Permission.UpsertReplaces` | internal/permission/service.go:54-77 | an upsert stores the policy with its times in place of the one for the same subject and keeps all others |
| `Permission.DecisionsForgetHistory` | internal/permission/service.go:54-77 | histories with the same last writes up to timestamps decide alike |
| `Permission.DecideIsExact` | internal/permission/service.go:88-119 | allowed to an admin unless the action needs an explicit policy, else the first match in sorted order, else denied; in terms of the roles held, not their order |
| `Permission.DecidedByFields` | internal/permission/service.go:88-119 | on the fields of policies and request: the first policy that lets the actor act decides, with its reason and approval; before that administrators are allowed, but for searching other groups |
| `Permission.LetsIff` | internal/permission/service.go:155-215 | a policy matches if and only if tenant, group, action, resource and subject, user, role or agent, do |
| `Permission.AdminIsNamed` | internal/permission/service.go:88-101 | an administrator is allowed in the name of an administrator's role it has |
| `Permission.RoleOrderIsForgotten` | internal/permission/service.go:88-119 | lists of the same non-empty roles, in any order and with repetitions, decide alike |
| `Permission.MoreRolesNeverDeny` | internal/permission/service.go:88-119 | more roles never turn a decision that is not a denial into one |
| `Permission.MoreRolesNeedApprovalIff` | internal/permission/service.go:88-119 | further roles turn an allowed action into one that needs approval if and only if none is an administrator's and the first policy for a role the actor did not have asks for approval and comes before every policy that granted so far |
| `Permission.MoreRolesMayNeedApproval` | internal/permission/service.go:88-119 | two policies and two role lists for which that happens |
| `Permission.UniqueIsASet` | internal/permission/service.go:217-232 | de-duplicated, sorted roles depend only on which roles there are |
| `Permission.UniqueStrings` | internal/permission/service.go:217-232 | the loop with its seen-set computes them |
| `Permission.InMemoryService.UpsertPolicy` | internal/permission/service.go:54-77 | the method overwrites in place or appends and sorts |
| `Permission.InMemoryService.Evaluate` | internal/permission/service.go:88-119 | the method's loop computes the decision |
| `Intake.ReachedStoresEvaluate` | internal/intake/service.go:155-226 | in every store reached by upserts and deletes evaluation never errors and returns the best applicable matching policy |
| `Intake.EvaluateIsBest` | internal/intake/service.go:185-226 | the answer is a policy none of the applicable matching ones is better than by priority, update time and id, or nothing if none matches |
| `Intake.RankedFirstAnswers` | internal/intake/service.go:185-226 | in every reached store a request is answered if and only if a stored policy answers it, and by one no other answering policy precedes: higher priority, later update, smaller id |
| `Intake.AnswersIff` | internal/intake/service.go:292-330 | a policy answers if and only if it is enabled, for tenant, agent, version and channel, and its pattern matches as its kind of match says |
| `Intake.UpsertStores` | internal/intake/service.go:228-290 | what is stored for a policy, field by field with trimming and defaults, and which policies are refused |
| `Intake.OrderMattersIff` | internal/intake/service.go:101-112 | the answer depends on map order if and only if two different stored policies tie for best |
| `Intake.TieIsOwnAgainstShared` | internal/intake/service.go:332-342 | such a tie is always between a shared policy and the tenant's own one of the same id |
| `Intake.OrderCanMatter` | internal/intake/service.go:101-112 | from the empty store, a shared and an own policy of one id written at the same time leave a request with two answers |
| `Intake.IrrelevantPoliciesDoNotMatter` | internal/intake/service.go:292-309 | adding, changing or removing a draft, disabled or other tenant's policy changes no answer |
| `Intake.RunKeepsSound` | internal/intake/service.go:155-183 | stored policies are always normalized and valid |
| `Intake.Service.EvaluateRequest` | internal/intake/service.go:185-226 | the method's listing, sorting and loop compute the answer for the order visited |
| `Snippet.ExcerptIsWindow` | internal/knowledge/service.go:653-685 | every snippet is a contiguous window of the trimmed content of at most maxRunes runes, the whole of it when short enough |
| `Snippet.ExcerptIs` | internal/knowledge/service.go:653-685 | the excerpt of a longer content runs from a third of the limit before the first rune at or after the byte position found, or from that rune, as far as the limit goes |
| `Snippet.StartWithoutOccurrence` | internal/knowledge/service.go:653-668 | where the query does not occur the excerpt is the start of the content |
| `Snippet.ShowsOccurrenceIff` | internal/knowledge/service.go:653-685 | for every way of lower-casing, the window holds the whole first occurrence if and only if it starts no later than the occurrence and reaches to its end |
| `Snippet.ShortQueryIsShownIff` | internal/knowledge/service.go:653-685 | if the runes before the occurrence keep their byte widths, that is if and only if the query has at most maxRunes runes, less a third when that much text precedes it |
| `Snippet.WindowStart` | internal/knowledge/service.go:666-681 | the window starts a third of the limit before the rune that the byte position found leads to |
| `Snippet.LandingOfKept` | internal/knowledge/service.go:666-676 | where the runes before keep their widths, the byte position leads back to the occurrence |
| `Snippet.WidthsMatter` | internal/knowledge/service.go:660-681 | 300 or more Kelvin signs followed by the query: the program's snippet of 220 runes misses it |
| `Snippet.FirstRuneFrom` | internal/knowledge/service.go:669-676 | the loop over byte offsets finds the first rune at or after the position |
| `Snippet.Show` | internal/knowledge/service.go:656-685 | the slicing stays in range and computes the window |
| `Scoring.TermsAreProper` | internal/knowledge/service.go:542-561 | the terms are distinct and not empty, and there is one whenever the query is not blank |
| `Scoring.TermsAreCutWords` | internal/knowledge/service.go:542-561 | the terms are the lower-cased words between white space without punctuation at their ends; a query of nothing else is one term |
| `Scoring.FieldsAreWords` | internal/knowledge/service.go:543-543 | the words are the longest runs without white space |
| `Scoring.CutSplits` | internal/knowledge/service.go:546-546 | cutting takes punctuation off both ends and nothing else |
| `Scoring.CollectIsExact` | internal/knowledge/service.go:542-561 | they are exactly the words that are more than punctuation, each once |
| `Scoring.ScoresIff` | internal/knowledge/service.go:563-609 | a document scores if and only if a term occurs in its title or content or, for one term or in embedding mode, shares a rune with it |
| `Scoring.ScoreIs` | internal/knowledge/service.go:563-609 | the score by the number of terms that occur in text and title, or of runes they share with it, in every mode |
| `Scoring.Tokenize` | internal/knowledge/service.go:542-561 | the loop with its seen-set computes the terms |
| `Scoring.ScoreDocument` | internal/knowledge/service.go:500-520 | the mode switch over the three scoring loops computes the score |
| `Knowledge.SearchIsTopK` | internal/knowledge/service.go:500-540 | at most the limit of results, each earned by an eligible document, sorted by score and id; a document is left out only when the limit is reached and no result shown ranks after it |
| `Knowledge.SearchShowsBest` | internal/knowledge/service.go:500-540 | results come by falling score and then rising id; at most ten or as many as asked; what is left out scores at most what each result does, with no smaller id on a tie; each shows what its document says |
| `Knowledge.EligibleIff` | internal/knowledge/service.go:345-369 | a document is looked at if and only if tenant, base, index, source group and visibility allow it, said of its fields and its base's |
| `Knowledge.SearchAnswers` | internal/knowledge/service.go:320-338 | which searches are invalid and which refused |
| `Knowledge.SmallerLimitIsPrefix` | internal/knowledge/service.go:370-373 | a limit that counts as smaller gives a prefix; limits not positive or above ten count as ten |
| `Knowledge.SearchForgetsOrder` | internal/knowledge/service.go:340-407 | for distinct ids and the same mode the answer does not depend on the order of documents |
| `Knowledge.ModeForgetsOrderIff` | internal/knowledge/service.go:644-651 | the mode is free of that order if and only if the query names it or all candidates' bases agree |
| `Knowledge.ModeIs` | internal/knowledge/service.go:611-651 | the mode is the one named by the query, the first base or its kind of index, and bm25 unless that is embedding or hybrid |
| `Knowledge.ReachedResultsNameTheirDocument` | internal/knowledge/service.go:204-274 | in every store reached by creating bases and ingesting, each result comes from the stored, eligible document it names and reports the source group asked for |
| `Knowledge.IngestIs` | internal/knowledge/service.go:204-274 | what an ingestion stores, field by field, of document, base and job, and when it is refused |
| `Knowledge.CreateIs` | internal/knowledge/service.go:116-162 | what creating a base stores, and when it is refused |
| `Knowledge.CandidatesAreEligible` | internal/knowledge/service.go:350-369 | the filter keeps exactly the eligible documents |
| `Knowledge.Filter` | internal/knowledge/service.go:345-369 | the filter loop with its set of allowed bases computes them |
| `Knowledge.LocalSearch` | internal/knowledge/service.go:500-540 | the scoring loop, sort and cut compute the ranking |
| `Knowledge.CountsStayExactIff` | internal/knowledge/service.go:214-250 | an ingestion keeps every base's document count exact if and only if it moves no document out of another base that counts it and, if the base is of another tenant, the base holds as many other documents of its own tenant as of the document's, the new one counted |
| `Knowledge.MovingLosesCount` | internal/knowledge/service.go:236-250 | one document ingested into two bases leaves the first with a count too many |
| `Knowledge.OtherTenantLosesCount` | internal/knowledge/service.go:214-250 | from the empty store: a base of one tenant and a document of another in it leave the base with a wrong count |
| `Knowledge.InMemoryService.DocumentCount` | internal/knowledge/service.go:420-428 | the loop over the documents, in any order, counts those of the tenant in the base |
| `Knowledge.InMemoryService.IngestDocument` | internal/knowledge/service.go:204-274 | the method stores the completed document, refreshes its base with the count and times, and records the job |
| `Knowledge.InMemoryService.SearchDocuments` | internal/knowledge/service.go:320-407 | the method answers for the order in which it visited the documents |
| `CrossGroup.EveryResultIsSharedAndRedacted` | internal/crossgroup/service.go:143-221 | in all stores the operations of both services can reach, and for every map order, every result presents a stored, ready document of the tenant and source group, readable by the requester, shared by an enabled policy, redacted at the highest priority any matching policy asks for, with the fields and 180 runes that redaction leaves |
| `CrossGroup.ResultsShowOnly` | internal/crossgroup/service.go:143-221 | every result is redacted as the stored policies ask for, strict before masks, the mask of the policy updated last, else summaries, and shows of its document exactly the title, start of the snippet and address that this leaves |
| `CrossGroup.OpenIsShown` | internal/crossgroup/service.go:174-195 | a document that is readable and whose base a policy allows is shown if it scores, unless as many results as asked for are |
| `CrossGroup.SearchAnswers` | internal/crossgroup/service.go:143-195 | which searches are invalid, refused and answered |
| `CrossGroup.FilterIsExactIff` | internal/crossgroup/service.go:291-311 | the base filter admits exactly what some policy allows, if and only if not every list is made of blank ids |
| `CrossGroup.BlankListOpensEverything` | internal/crossgroup/service.go:291-311 | one policy listing a blank id admits every base though it allows none |
| `CrossGroup.StrongestIsFirstMaximal` | internal/crossgroup/service.go:322-336 | the redaction is that of the first policy of maximal priority |
| `CrossGroup.StrongestByName` | internal/crossgroup/service.go:322-336 | by name: strict if any policy is; else the mask of the first that asks for one; else summaries |
| `CrossGroup.MorePoliciesRedactMore` | internal/crossgroup/service.go:322-336 | one more policy never weakens the redaction |
| `CrossGroup.MatchingForgetsOrder` | internal/crossgroup/service.go:115-141 | the policies and their order do not depend on map order |
| `CrossGroup.MatchingByTime` | internal/crossgroup/service.go:133-139 | policies come by falling time of update, then by id |
| `CrossGroup.SearchForgetsOrder` | internal/crossgroup/service.go:143-221 | nor does the answer of the two services together, while the search mode does not |
| `CrossGroup.RunKeepsSound` | internal/crossgroup/service.go:69-100 | stored policies are kept under their own id and name tenant, source and target |
| `CrossGroup.Service.UpsertSharePolicy` | internal/crossgroup/service.go:69-100 | the method stores the policy under its id with the defaults spelled out, or refuses it |
| `CrossGroup.UnionOfBases` | internal/crossgroup/service.go:291-311 | the two nested loops with their early return compute the union of bases |
| `CrossGroup.StrongestRedaction` | internal/crossgroup/service.go:322-336 | the loop computes the strongest redaction |
| `CrossGroup.Service.SearchShared` | internal/crossgroup/service.go:143-221 | the method, checks first and through the knowledge service, computes the answer |
| `ExportedTools.ReplacedToolsAreSeenRight` | internal/server/commands_agent_package.go:632-666 | after a successful replacement each tool of either draft, as the tenant looks it up, is disabled if and only if the new draft has no active tool of its id, and active ones say what the draft says |
| `ExportedTools.DraftIsSeen` | internal/server/commands_agent_package.go:632-666 | on the fields: each tool of the new draft that is not disabled has a manifest of the tenant saying what the draft says, trimmed; a removed one is off for the tenant |
| `ExportedTools.UnknownIsRecordedOff` | internal/server/handlers_agent_exported_tools.go:480-494 | a removed tool without any manifest gets a disabled one of its own |
| `ExportedTools.UpsertIs` | internal/tool/catalog/catalog.go:1656-1687 | a write trims, gives an empty status, and refuses blank ids, names and descriptions |
| `ExportedTools.DisableStops` | internal/server/handlers_agent_exported_tools.go:467-499 | the first tool that cannot be disabled ends the disabling |
| `ExportedTools.SyncStops` | internal/server/handlers_agent_exported_tools.go:436-465 | the first tool that cannot be written ends the writing |
| `ExportedTools.OtherEntriesStay` | internal/server/handlers_agent_exported_tools.go:436-499 | however a replacement ends, entries of other tools and tenants stay as they were |
| `ExportedTools.SharedEntryStaysIff` | internal/server/handlers_agent_exported_tools.go:467-499 | a shared manifest is left as it was if and only if the tenant has its own for the id or no removed tool is spelled that way first |
| `ExportedTools.SharedEntryIsLost` | internal/tool/catalog/catalog.go:1027-1035 | removing a tool that has only a shared manifest disables the shared one |
| `ExportedTools.SharedEntryIsLostSomewhere` | internal/tool/catalog/catalog.go:1027-1035 | a catalog in which that happens |
| `ExportedTools.ReplaceKeepsSound` | internal/tool/catalog/catalog.go:1656-1687 | manifests stay normalized and under their own key |
| `ExportedTools.ToolCatalog.DisableRemovedTools` | internal/server/handlers_agent_exported_tools.go:467-499 | the two loops, one manifest at a time and stopping at the first failure, do what the step function says |
| `ExportedTools.ToolCatalog.SyncExportedTools` | internal/server/handlers_agent_exported_tools.go:436-465 | the same for writing the exports |
| `ExportedTools.ToolCatalog.ReplaceExportedTools` | internal/server/commands_agent_package.go:657-664 | the same for both in a row |
| `Usage.SummaryCountsEveryMatchedEvent` | internal/server/handlers_service_connections.go:607-633 | matched events = invocations + completions + failures + health checks, and latency samples are all but the invocations |
| `Usage.ReportIs` | internal/server/handlers_service_connections.go:591-698 | summary and entries are the evidence of exactly the events that concern the connection and, among them, name the provider or tool |
| `Usage.RelevantIff` | internal/server/handlers_service_connections.go:700-732 | which events concern the connection, said of tenant, kind, connection, tool, operation and own providers |
| `Usage.CountsAre` | internal/server/handlers_service_connections.go:734-771 | each count is the number of events of its kind, and latencies add up over all but invocations |
| `Usage.AverageIs` | internal/server/handlers_service_connections.go:773-783 | the average is the latency over the samples cut off toward zero |
| `Usage.RecentAreLatest` | internal/server/handlers_service_connections.go:640-650 | the events shown are the twenty latest, latest first |
| `Usage.CountsAreConserved` | internal/server/handlers_service_connections.go:607-633 | for any list of distinct ids, every count of the whole is the sum over the listed entries plus the events in none of them |
| `Usage.SummaryIsSumOfAllProviders` | internal/server/handlers_service_connections.go:607-633 | over all providers seen, the summary is their evidence plus the events that name none |
| `Usage.ListedAreConservedIff` | internal/server/handlers_service_connections.go:607-670 | for any list of ids, the whole is the listed evidence plus the events in none of it, if and only if no id with evidence is listed twice |
| `Usage.SummaryIsSumOfPartsIff` | internal/server/handlers_service_connections.go:591-698 | so the reported summary is the sum of the providers, or tools, it lists plus the matched events that name none or an unlisted one, if and only if none with evidence is listed twice |
| `Usage.OwnAndSharedCountTwice` | internal/tool/catalog/catalog.go:912-936 | an own and a shared provider of one id, and one event: the parts are more than the summary |
| `Usage.EntryIsFoldOfItsEvents` | internal/server/handlers_service_connections.go:614-632 | each entry is the evidence of exactly its own events |
| `Usage.FoldRemembersLast` | internal/server/handlers_service_connections.go:734-743 | the last event time is that of the latest event with a time, and missing only if none has one |
| `Usage.FoldRemembersCodes` | internal/server/handlers_service_connections.go:744-771 | error codes and health statuses are exactly those of failures and health checks, once each |
| `Usage.PerformsExactly` | internal/server/handlers_service_connections.go:785-787 | for provider ids without NUL the joined operation keys match exactly the connection's operations |
| `Usage.EventMatches` | internal/server/handlers_service_connections.go:700-723 | the early returns over three sets decide exactly whether an event concerns the connection |
| `Usage.TraceEvidence.AddTraceEvent` | internal/server/handlers_service_connections.go:734-771 | the updates through the pointer add exactly one event |
| `Usage.BuildUsage` | internal/server/handlers_service_connections.go:591-698 | the loops build the report the lemmas are about |
| `Text.Join3Injective` | internal/conversation/memory.go:202-208 | NUL-joined keys can be read back when the leading parts hold no NUL |
| `Text.LessByFirstDifference` | internal/intake/service.go:332-342 | strings are ordered by their first difference |
| `Text.TrimSpaceSplits` | internal/intake/service.go:228-244 | trimming takes white space off both ends and nothing else |
| `Sorting.SortForgetsOrder` | internal/intake/service.go:332-342 | sorting forgets the order of arrival when no two elements tie |

## Left out

- Restoring the registry's definitions and defaults from stored assets at start-up.
- ReleaseState.Publish: a registration that fails after the release is stored; the model registers the definition with the release.
- Durable stores behind the services, and the memory-before-store order of writes: the in-memory branch is modelled.
- Operation without an agent registry, a package service or a knowledge service: all are taken to be configured.
- Trace and audit records, whose errors the program ignores; logging.
- HTTP handlers, JSON decoding, authentication, SQL, migrations, readiness and go/no-go reports: plumbing with no hard property.
- Release commands that interleave with each other inside the saga: its read-then-switch steps are not atomic across commands, so runs are sequential there; interleaving is modelled for approvals.
- The inside of plugin checks and of the calendar of deployment windows: whether they pass is an input.
- Canary scope, carrier fields of an asset and the compiled definition of a version: not read by any modelled decision.
- Policy versions of the second approval client: its approval steps are modelled, what it does to a policy version afterwards is not.
- Invalid UTF-8, and case mappings that change the number of runes.
- ReleaseService.ReleaseCommands.Rollback: the listing of releases it searches is an input, as its order is Go's map order; the protocol lemmas quantify over every listing of the stored releases.
- Redaction.SafeInMemory: only maps are objects; arrays, string maps and tool errors inside them are held by value, so maps inside arrays are not.
- JsonMerge.MergeObjects: arrays and scalars inside an object are held by value, so sharing of objects inside arrays is not modelled.
- Conversation threads as records of their own (`UpsertThread`, listing of threads).
- Scoring.ScoresIff: scores are counted in hundredths as integers; floating-point rounding is not modelled.
- CrossGroup.EveryResultIsSharedAndRedacted: stated for policies that list at least one id or open everything, as `CrossGroup.FilterIsExactIff` shows to be necessary.
- ExportedTools.ReplacedToolsAreSeenRight: manifest validation beyond blank id, name and description is one of the ways a write may be refused; tenants are taken to hold no NUL.
- Usage of tool groups, delegation, identity, evaluation and memory stores: easy members.
