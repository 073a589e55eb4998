# Verification of alred

`alred` plans, approves, applies and rolls back NX-OS Overlay changes and imports,
normalises and ships network evidence. This project models the algorithms and
protocols behind its I/O and proves what they promise, for every input, every run
or every sequence of faults. `dafny verify dfyconfig.toml` checks it.

Code that updates state step by step is modelled by classes and methods with
loops; each is proved against a specification that does not mention its steps, or
against a function about which lemmas say what the result means in the terms of the
input (lines, claims, replies, observations) rather than of the code. What the code
cannot control is a parameter: regular expressions, hashes, codecs and parsers are
functions (with the few facts that are used stated as predicates such as
`RulesFit` or `EnvFits`), devices, clocks and file steps are oracles that may do
anything at any moment.

| module | models |
|---|---|
| Ordering | Python's orders and `sorted`, on sets and on lists |
| DeviceGroups, ResourceTargets | expansion of device groups into all chains; overrides and evidence of one resource |
| ServiceLayout, RouteTargets | layout ranks by two searches per component; the indexed route-target join |
| Cidr, OverlayModel, OverlayConflict, OverlayMerge | the conflict report, and what PASS promises about the merged state |
| OverlayRender, OverlayEffect, OverlayDelta | ownership flags, the effect of forward and rollback configuration on a device, and the flags as a difference of facts |
| OperationArchive | archive and restore as file steps with faults |
| OperationRun, OperationGuard | locks, journal files, guards, signals and crashes of concurrent processes on one operation |
| ManagedConfig | configuration sessions, the serial executor, and the apply and rollback drivers |
| LabRules, LabTransform, LabOrder, LabNtp | what a lab configuration must be, removing and inserting configuration sections, and the order they end up in; pairing NTP servers |
| SecretRules, SecretScan, SecretRescan | what a scan must find, the line scanner and its sanitizer, and scanning the sanitized text again |
| LinkMerge, LinkClaims, LinkDiagnostics | one row per link, its canonical order, and the verdict over link evidence |
| EvidenceRules, EvidencePackage | what an evidence package must hold, its producer and its reader |
| SemanticDiff | difference paths of JSON documents, and the verification of one device |
| ClabRuntime | the readiness loop |

## Where the code does not keep a promise

Each of these has a lemma below with the exact condition under which the promise
holds, for all inputs or runs; some have an input or a run that breaks it as well.

- Close reads the workflow state before it takes the lock and does not look again,
  so it can succeed after an apply has sent configuration
  (`OperationRun.CloseRacesWithApply`). It is right exactly if nothing was sent
  between its own reading and its acquisition of the lock (`OperationRun.CloseCountsItsWindow`).
- No command on the way to apply asks for the lifecycle, so a closed operation can still be applied
  (`OperationRun.ClosedOperationStillApplies`), exactly if its workflow state is not a dead
  end: one without a way on, or one that only the call that stored it leaves, such as
  `before_running` or `device_state_unknown` (`OperationRun.ClosedButNotFinal`).
- The rollback configuration removes the L3VNI of every VRF that existed before, and
  undoes neither `rd auto`, nor address-family blocks, nor what is written into existing
  SVIs and EVPN entries. It restores the device exactly if nothing was sent or all of
  that was there before and no existing VRF had an L3VNI (`OverlayEffect.RollbackRestores`).
- No ownership flag records any of this, so a render can call such a resource preserved
  and send nothing (`OverlayEffect.PreserveIsIdle`); the flags are the exact difference
  of the recorded facts unless an existing VRF lacks its L3VNI (`OverlayDelta.DeltaIsExact`).
- A restore drops the setuid, setgid and sticky bits that the archive recorded
  (`OperationArchive.RoundTrip`, `OperationArchive.ArchiveThenRestore`).
- A redacted line no longer pops its parents, so sanitized NX-OS text with unusual
  indentation can fail its own rescan (`SecretRescan.RedactionUncoversParent`), exactly if
  a line left in place falls into a context of lines left in place (`SecretRescan.RescanIsCleanIff`).
- Sections generated for the end of a file keep their order exactly if there are at most
  two (`LabOrder.TailOrder`); `LabOrder.CategoryOrder` has the condition for every category.
- LLDP claims of hosts outside the inventory need no answer for a pass
  (`LinkClaims.OutsideInventoryIsNotJudged`); what a pass does mean for every input is
  `LinkClaims.SilenceMeansJudgedAgreement`.
- The depth limit bounds the route on which a group is first met, not the longest chain
  (`DeviceGroups.ResolveDeviceGroups`).
- A member name with a line break makes a written evidence package unreadable
  (`EvidencePackage.CreatedIsVerified`).
- The pointer of a whole document is written as a slash, which is also the pointer of
  an empty key (`SemanticDiff.PathTextTells`).
- VLANs of traditional L3VNIs are outside the conflict assessment
  (`OverlayMerge.TraditionalVlansUnchecked`); PASS keeps the ChangeSet's VLANs apart
  exactly if the ChangeSet does so for those (`OverlayEffect.PassSeparates`).

## Model

| member | source | states |
|---|---|---|
| DeviceGroups.ResolveDeviceGroups | alred/device_groups.py:50-113 | for every depth limit, a hierarchy is accepted exactly if it is defined throughout, acyclic, reaches a device from every group, and meets no group deeper than the limit on the first route to it (roots by name, children as listed); then each host has exactly the sorted, duplicate-free list of all chains that lead to it; a rejected one has the defect its error names |
| DeviceGroups.MetFirst | alred/device_groups.py:58-74 | once everything sooner is memoised, a group without an entry is met on its first route, so its stack is as deep as that route |
| DeviceGroups.BehindChild | alred/device_groups.py:88-92 | when the earlier children of a group are memoised, so is everything the search meets sooner than the next child |
| DeviceGroups.Resolver.Expand | alred/device_groups.py:58-109 | one recursive expansion terminates on cyclic input too, keeps the memo exact for every group it holds, never removes an entry, and on success has the entry of the requested group |
| DeviceGroups.NoCycle | alred/device_groups.py:64-67 | a group with a finite, exact list of chains does not lie on a cycle, so returning a memo entry before the cycle check is safe |
| DeviceGroups.LongerChain | alred/device_groups.py:88-99 | a walk from a group back to itself, put before a chain of that group, is again one of its chains |
| DeviceGroups.WalkThenChain | alred/device_groups.py:58-109 | a walk into a group followed by a chain of that group is a chain of the first group of the walk |
| DeviceGroups.RejectionMeansDefect | alred/device_groups.py:64-101 | every error other than the depth limit means that the hierarchy is not well formed; the depth error means a walk longer than the limit and a limit below the number of groups |
| ResourceTargets.ResolveResourceTargets | alred/device_groups.py:116-177 | with dictionaries as input, the call is rejected exactly if a group is unknown, two selecting groups disagree about a host without an explicit override, or nothing is selected; the error names such a defect; otherwise overrides and evidence are exact |
| ResourceTargets.OrderIndependentVerdict | alred/device_groups.py:121-170 | permuting the groups changes neither what is selected nor whether the call is rejected |
| ResourceTargets.OrderIndependentTargets | alred/device_groups.py:121-177 | two exact results for permuted groups are the same overrides and the same evidence |
| ResourceTargets.ExactIsConsistent | alred/device_groups.py:102-113 | the result of group resolution meets what target resolution relies on |
| ServiceLayout.LayoutRanks | alred/overlay_service.py:938-965 | the graph is the undirected leak relation on the visible services, every service has a rank, and each rank is the exact distance from the hub of its component; all loops terminate |
| ServiceLayout.Component | alred/overlay_service.py:946-953 | the first search returns exactly the services connected with its seed |
| ServiceLayout.Distances | alred/overlay_service.py:955-963 | the second search gives each service of the component, and no other, the length of a shortest walk from the hub |
| ServiceLayout.NoShorterWalk | alred/overlay_service.py:955-963 | once the frontier is empty, every walk out of the hub is at least as long as the distance recorded for its end |
| ServiceLayout.HubHasRankZero | alred/overlay_service.py:954-965 | each component has a service of rank 0 |
| ServiceLayout.RankZeroIsUniqueHub | alred/overlay_service.py:954-965 | a service of rank 0 has the largest degree of its component, and no other service of the component has rank 0 |
| ServiceLayout.NeighboursWithinOne | alred/overlay_service.py:955-965 | the ranks of two services with a leak between them differ by at most one |
| RouteTargets.RouteLeaks | alred/overlay_service.py:773-811 | the indexed join lists exactly the leaks as the observations define them, each once: a target that one service exports and another imports in an address family it has, with the nodes that observed it on either side, configured exactly if these are the nodes where the policies belong; in strictly ascending order of source, destination, address family and target |
| RouteTargets.LeakBetweenIs | alred/overlay_service.py:668-716 | the definition by pairs, sets of nodes and placements, on which the join works, says the same for every two services |
| RouteTargets.BuildIndexes | alred/overlay_service.py:686-713 | the two indexes hold, for every target and service, exactly the nodes that observed it as export or as import, and no empty entries |
| RouteTargets.JoinSource | alred/overlay_service.py:779-801 | the leaks of one target out of one service are found exactly once each |
| RouteTargets.SortKeyIdentifies | alred/overlay_service.py:806-811 | two leaks of one model with the same sort key are the same leak, so the sorted list is determined by the set of leaks |
| Cidr.OverlapIsSharing | alred/overlay_conflict.py:221-233 | two networks of one version overlap exactly if some address lies in both |
| Cidr.OverlapIsPrefixMatch | alred/overlay_conflict.py:221-233 | they overlap exactly if they agree on the bits of the shorter prefix (section 3.1 of RFC 4632) |
| OverlayConflict.AssessOverlayConflicts | alred/overlay_conflict.py:41-311 | the report holds exactly the conflicts of the merged state, a missing-evidence entry for exactly the hosts without state, and is PASS exactly if every host has state and no conflict |
| OverlayConflict.CheckL2 | alred/overlay_conflict.py:74-162 | the codes reported for one L2VNI are exactly those that apply to it, given the earlier ones |
| OverlayConflict.CheckSvi | alred/overlay_conflict.py:209-270 | an SVI is reported for an overlap exactly if an address of a later desired SVI, or of another observed interface, of its VRF shares a network with it |
| OverlayMerge.PassKeepsMappings | alred/overlay_conflict.py:49-208 | PASS: overlaying the desired state changes no observed VLAN or VRF mapping, every desired one holds afterwards, and maps that were injective stay injective |
| OverlayMerge.CleanIffMergeable | alred/overlay_conflict.py:41-270 | for every ChangeSet and state: a host is found clean exactly if adding the mappings disagrees with nothing in either direction, existing SVIs have every attribute that is desired of them, and the networks of its SVI addresses, IPv4 and IPv6, are disjoint from each other and from those of other interfaces in the VRF |
| OverlayMerge.OverlapReported | alred/overlay_conflict.py:209-235 | an overlap is reported for a VLAN exactly if its SVI and a later one of another VLAN in its VRF have addresses, IPv4 or IPv6, whose networks share an address |
| OverlayMerge.InterfaceOverlapReported | alred/overlay_conflict.py:236-270 | the same for an SVI and the other observed interfaces |
| OverlayMerge.OverlaidExactly | alred/overlay_conflict.py:49-208 | adding compatible pairs to a map gives exactly the old and the new entries, and keeps it injective |
| OverlayMerge.PassSeparatesSvis | alred/overlay_conflict.py:209-235 | PASS: no address lies both in the network of an IPv4 or IPv6 address of a desired SVI and in that of one of another desired SVI of its VRF |
| OverlayMerge.PassSeparatesInterfaces | alred/overlay_conflict.py:236-270 | PASS: the same for an IPv4 or IPv6 address of a desired SVI and one of any other observed interface of its VRF |
| OverlayMerge.TraditionalVlansUnchecked | alred/overlay_conflict.py:41-311 | a ChangeSet that gives one VLAN to an L2VNI and to a traditional L3VNI can pass: those VLANs are outside the assessment |
| OverlayRender.RenderDevice | alred/overlay_render.py:441-652 | rendering is refused exactly if some resource does not fit the observed state; otherwise every resource has its exact ownership, is created exactly if the ownership is not empty, and `no_change` holds exactly if everything wanted is there |
| OverlayRender.RenderL2 | alred/overlay_render.py:442-511 | an L2VNI is refused for a reason that applies, and accepted only if none does; its ownership is what its configuration adds to the observed state |
| OverlayRender.RenderL3 | alred/overlay_render.py:513-632 | the same for an L3VNI |
| OverlayRender.AcceptedIffFits | alred/overlay_render.py:442-575 | nothing is refused exactly if VLANs, names, VNIs and VRFs are free or as wanted, existing SVIs have what is wanted of them, and no address family of a BGP VRF has another `redistribute direct`, `redistribute static` or `maximum-paths ibgp` than the wanted one |
| OverlayRender.PreservedIffReady | alred/overlay_render.py:487-640 | accepted with nothing to create exactly if all wanted VLANs, names, mappings, SVIs, NVE members, EVPN entries, VRFs, route targets and BGP commands are there, with no second command of the three kinds |
| OverlayEffect.RollbackRestores | alred/j2/nxos_overlay_rollback_config.j2:1-91 | rolling back what was applied restores the device exactly if nothing was sent, or every existing VRF was without an L3VNI and had `rd auto` and the address families, and the existing SVIs, BGP VRFs and EVPN entries had already what is written into them without an ownership flag |
| OverlayEffect.TemplateRestores | alred/j2/nxos_overlay_rollback_config.j2:1-91 | what the two templates alone do to each other: the rollback text undoes the forward text exactly under the second of these conditions |
| OverlayEffect.SecondRenderIsEmpty | alred/overlay_render.py:441-652 | after its configuration a second render is accepted and preserves everything, so applying it again changes nothing |
| OverlayEffect.ReadyAfterwards | alred/j2/nxos_overlay_forward_config.j2:1-98 | after the configuration of an accepted ChangeSet all of that is there, so no address family is left with two different commands of one of the three kinds |
| OverlayEffect.VrfWritten | alred/j2/nxos_overlay_forward_config.j2:9-16 | and so are, in every VRF of the ChangeSet, its L3VNI and `rd auto` |
| OverlayEffect.EvpnAndSviWritten | alred/j2/nxos_overlay_forward_config.j2:30-86 | and `rd auto` and both route targets for every VNI under `evpn`, and an SVI that is up and described, without redirects for the kinds of addresses it has |
| OverlayEffect.PreserveIsIdle | alred/overlay_render.py:580-652 | when everything is preserved nothing is sent; the forward text would have changed nothing exactly if the existing VRFs have their L3VNI and `rd auto`, and the SVIs and EVPN entries what no flag records |
| OverlayEffect.EditsUndone | alred/j2/nxos_overlay_rollback_config.j2:1-91 | undoing edits with distinct keys restores a map exactly if each edit is undone at its own key |
| OverlayEffect.EditsIdle | alred/j2/nxos_overlay_forward_config.j2:1-98 | edits with distinct keys leave a map alone exactly if each leaves its own entry alone |
| OverlayEffect.PassSeparates | alred/overlay_conflict.py:49-208 | under PASS the resources of a ChangeSet touch pairwise different VLANs and VRFs exactly if the VLANs of its traditional L3VNIs are distinct and none is the VLAN of an L2VNI |
| OverlayEffect.PassExcludesRefusals | alred/overlay_render.py:442-521 | PASS leaves the renderer only a name conflict, a BGP command conflict and the conflicts of traditional L3VNIs: the mapping errors are unreachable |
| OverlayDelta.PassDelta | alred/overlay_render.py:441-652 | under PASS, with VLANs kept apart and VRFs that are absent or mapped already, the ownership deltas of the resources are pairwise disjoint and new; a device with exactly the deltas added renders to nothing, and taking exactly them away gives what was there before |
| OverlayDelta.DeltaIsExact | alred/overlay_render.py:487-575 | what a configuration adds to the facts the renderer reads is exactly the sum of the ownership deltas if nothing is sent or every existing VRF of the ChangeSet has its L3VNI, and more than that otherwise |
| OverlayDelta.ForwardAdds | alred/j2/nxos_overlay_forward_config.j2:1-98 | a fact holds after the forward text exactly if it held before, some ownership flag claims it, or it is the L3VNI of an existing VRF |
| OverlayDelta.PassDisjoint | alred/overlay_render.py:487-575 | PASS and separate VLANs keep the deltas of different resources disjoint |
| OverlayDelta.SameRender | alred/overlay_render.py:441-652 | the renderer reads no more than these facts: states with the same facts are accepted or refused, and changed or preserved, alike |
| OperationArchive.Storage.ArchiveOperation | alred/operation.py:1031-1181 | under any plan of exceptions, interrupts and crashes, and whether or not a failing step took effect, the location entry names a complete copy of the operation; a refusal changes nothing; success leaves the packed tree and a matching checksum and no live tree |
| OperationArchive.Storage.RestoreOperation | alred/operation.py:1239-1357 | the same for restoring: it is refused exactly if the location names no archive, archive or checksum file are not those it records, or there is a live tree; success leaves the recorded tree live, and no archive |
| OperationArchive.Storage.ArchiveHandler | alred/operation.py:1169-1181 | the exception handler of the archive never removes the last complete copy, at whatever step the exception came |
| OperationArchive.Storage.RestoreHandler | alred/operation.py:1349-1357 | neither does the handler of the restore |
| OperationArchive.Campaign | alred/operation.py:1031-1357 | any sequence of archives, restores and lock removals under any faults keeps the operation recoverable |
| OperationArchive.ArchiveThenRestore | alred/operation.py:1031-1357 | without faults, archiving and restoring gives the same tree back exactly if no file has a mode bit beyond the lower nine |
| OperationArchive.RoundTrip | alred/operation.py:1297-1324 | packing and unpacking is the identity exactly on such trees: the restore masks the recorded mode |
| OperationArchive.PackVerified | alred/operation.py:1096-1140 | a fresh archive passes its own verification |
| OperationRun.PreApplyIsNotReentered | alred/operation.py:91-138 | no workflow transition leads from a later state back into one before apply |
| OperationGuard.LeadsTo | alred/operation.py:91-138 | the workflow transitions, by the states from which each state can be entered |
| OperationGuard.LifecycleLeadsTo | alred/operation.py:57-73 | the lifecycle transitions in the same way |
| OperationGuard.PreApplyIsOnTheWay | alred/operation.py:1184-1228 | the workflow states in which an operation may be closed are exactly those from which transitions lead to an apply |
| OperationGuard.StoresBy | alred/managed_operation.py:420-1265 | what each command stores, by the state it begins in: planning, approval, apply, evaluation, save, rollback, verification, and save or qualification of a verified rollback |
| OperationGuard.StepsFollowTransitions | alred/operation.py:1685-1870 | over every run: each step leaves both stored states alone or moves one of them along one transition |
| OperationGuard.EndedStays | alred/operation.py:57-75 | over every run: a lifecycle that has ended never changes again, unless it is that of an inspection, which may run again after it has completed |
| OperationRun.RunKeepsInv | alred/operation.py:1685-1957 | every run of any number of processes, with a crash or a signal between any two file steps, keeps the invariant that ties lock, journal files, guards and sent commands together |
| OperationRun.CloseMeansNothingSent | alred/operation.py:1184-1228 | over every run: a close that loaded a state before apply under the lock found that nothing had been sent |
| OperationRun.UndisturbedCloseMeansNothingSent | alred/operation.py:1184-1228 | over every run: so did a successful close during which nobody else held or took the lock between its first reading and its own acquisition |
| OperationRun.CancelledMeansNothingSent | alred/operation.py:1892-1957 | over every run: a guard that recorded CANCELLED_BEFORE_APPLY guarded a call that has sent nothing and is over |
| OperationGuard.GuardTellsTheTruth | alred/operation.py:1892-1957 | over every run: a guard records DEVICE_STATE_UNKNOWN exactly if its call had been marked, so always if it has sent, and CANCELLED_BEFORE_APPLY otherwise; once that is recorded, and until the lock is released, the stored state says accordingly that nothing is under way any more |
| OperationGuard.HandlerPlanIs | alred/operation.py:1892-1957 | what the handler is going to store: before the first command a cancelled lifecycle and the workflow as it was, after it an unknown device or a required rollback where a session was under way, and an unknown lifecycle if it was running; each transition is allowed |
| OperationGuard.SignalIsHandled | alred/operation.py:1892-1957 | wherever a signal finds a guarded call with the lock, the handler can run to its end, which stores that state and records the code |
| OperationGuard.StaleLockStays | alred/operation.py:1547-1641 | the lock of a process that crashed keeps every other process from changing the stored state until it is cleared |
| OperationGuard.OneHolder | alred/operation.py:1547-1641 | over every run: no two processes are between acquiring and releasing the lock |
| OperationRun.SentMeansPastApproval | alred/managed_operation.py:520-546 | over every run: once a command has been sent, the stored workflow state is past the states before apply, also between the two journal writes |
| OperationRun.CloseCountsItsWindow | alred/operation.py:1196-1222 | over every run: what had been sent when a close succeeded is exactly what was sent between its own reading of the metadata and its acquisition of the lock, so it closed an operation to which nothing had been sent exactly if nobody sent anything then |
| OperationRun.CloseRacesWithApply | alred/operation.py:1196-1230 | such a run: close checks the workflow state before it takes the lock and not again, and succeeds after an apply has sent a command |
| OperationRun.ClosedButNotFinal | alred/operation.py:1183-1228 | over every run: after a successful close configuration can still be sent, by processes that are there to do so, exactly if the workflow state it left behind is not one of the dead ends, which only the call that stored them leaves or nothing does |
| OperationRun.DeadEndIsFinal | alred/managed_operation.py:1116-1123 | after a close in a dead end nothing more is sent, whatever runs: every command that enters a session, or leads to one, refuses such a state at its start |
| OperationRun.RollsBackYet | alred/managed_operation.py:1112-1202 | from every other state past the first entry a run of evaluation, verification, save and rollback, each from a state it may begin in, sends |
| OperationRun.ClosedOperationStillApplies | alred/managed_operation.py:453-456 | a run in which an operation is closed and then applied: apply checks the workflow state only |
| ManagedConfig.Bench.ExecuteConfigSession | alred/managed_config.py:204-291 | the sent commands are a prefix that ends at the first reply that is an exception or a CLI error which neither an allow rule nor the option to ignore errors excuses; that is the first failure, and without one all are sent; the records are numbered from one, each tells its command, reply, error and status, and the rest is marked as not started |
| ManagedConfig.SessionTells | alred/managed_config.py:204-291 | the same for every session that is told of its replies: its first failure is the first such reply, it is UNKNOWN exactly if that is an exception and FAILED exactly if it is an error |
| ManagedConfig.FailsFirst | alred/managed_config.py:236-262 | under any options the first failure is the first reply that is an exception, or an error that is looked for and that neither an allow rule nor the option to ignore all errors excuses; without one every command was sent |
| ManagedConfig.SerialVerdict | alred/managed_config.py:204-291 | under the serial defaults: SUCCESS exactly if every command was sent and no reply is an exception or has a CLI error, UNKNOWN exactly if the last reply is an exception, FAILED exactly if it has an error |
| ManagedConfig.Bench.ExecuteSerialDevices | alred/managed_config.py:356-442 | every execution is a list of completed devices, at most one that failed after a prefix of its commands, and devices nothing reached; it succeeds exactly if no connection, precheck, transition or reply failed on the way, and then has sent every device its commands, all of them and no others; each opened connection is disconnected once and before the next one opens; nothing is sent before the workflow is in the entry state |
| ManagedConfig.Bench.RunDevice | alred/managed_config.py:374-428 | what one turn sends is a prefix of the device's commands, none if connecting, the precheck or the transition fails, and the connection is closed whatever happened |
| ManagedConfig.Bench.ExecuteApprovedApply | alred/managed_operation.py:420-597 | an apply that returns ends in apply_completed exactly if no connection, precheck or transition failed and no reply of any device was an exception or a CLI error, and in rollback_required otherwise; an exception that leaves the workflow before apply means that nothing was sent |
| ManagedConfig.Bench.ExecuteApprovedRollback | alred/managed_operation.py:1112-1241 | a rollback that returns ends in rolled_back under the same condition and in rollback_failed otherwise; as long as the workflow is in a state to start from, nothing was sent |
| ManagedConfig.SessionMoments | alred/managed_config.py:374-428 | in the trace of a session every sent command stands at the moment of its own reply, and all of them are fine exactly if no reply is an exception or a CLI error |
| ManagedConfig.DisconnectedOnce | alred/managed_config.py:374-428 | in a trace of this order every opened connection is disconnected exactly once, except one still open |
| ManagedConfig.CommandsFollowEntry | alred/managed_operation.py:520-546 | in a trace of this order every command comes after the transition to the entry state |
| ManagedConfig.SerialStatus | alred/managed_config.py:204-291 | a session under the serial defaults either sent and passed all commands or failed |
| ManagedConfig.JoinSeverity | alred/managed_config.py:217-262 | the joined status is at least as severe as every record and is the status of one of them |
| ManagedConfig.OthersStay | alred/managed_config.py:356-442 | a turn of one device leaves what is recorded and sent for all others as it was |
| LabTransform.TransformSections | alred/lab_transform.py:700-780 | the output is, in order, what is left of exactly the nonempty sections that stay, with every wanted section once and behind as many of them as its index says: logging, DNS, AAA, SNMP, NTP and user sections go unless preserved, crypto sections always, access lists named in a `line vty` section unless the access class is preserved, and of a `line vty` section the lines that set one |
| LabTransform.TransformedIsLabConfig | alred/lab_transform.py:692-780 | the same for the function that the loops compute, for all rules, policies and sections |
| LabTransform.KeptAreThose | alred/lab_transform.py:701-744 | the kept sections are, in order, what is left of the sections that stay, by their source indexes |
| LabTransform.GeneratedIsWanted | alred/lab_transform.py:746-778 | what is inserted is each section the policy asks for in each category, with an index counted from the kept sections in front of the first section that went for the category, or from all of them |
| LabTransform.LayoutPlaces | alred/lab_transform.py:740-780 | for every policy, kept sections keep their order, every generated section appears exactly once, and one with insertion index g has exactly min(g, number kept) kept sections before it |
| LabTransform.Idempotent | alred/lab_transform.py:700-780 | with NTP servers and source users not preserved and the access class removed or preserved, a second transform with the same NTP lines changes nothing, for every list of sections and every service policy |
| LabTransform.SameStart | alred/lab_transform.py:700-780 | a second pass finds every category with generated sections at the index the first pass used |
| LabTransform.InsertAllPlaces | alred/lab_transform.py:779-780 | inserting in descending order of index never moves a kept section behind an index still to come |
| LabOrder.PairOrder | alred/lab_transform.py:779-780 | of two generated sections the one inserted later comes out first exactly if its index does not exceed the number of sections there were when the other one was inserted |
| LabOrder.TurnOf | alred/lab_transform.py:779-780 | the place of a generated section in the stable sort is the number of sections with a larger index, or with the same index and generated before it |
| LabOrder.CategoryOrder | alred/lab_transform.py:748-780 | the generated sections of a category come out in the order of generation exactly if there is at most one, or the index of the last but one does not exceed the number of sections, kept ones and those of all categories, that are there when the last one is inserted |
| LabOrder.BatchOrder | alred/lab_transform.py:779-780 | the same for any list of generated sections |
| LabOrder.LoneBatchOrder | alred/lab_transform.py:779-780 | a category on its own keeps its order exactly if it has at most one section or its first index and its number of sections exceed the number kept by at most two |
| LabOrder.TailOrder | alred/lab_transform.py:779-780 | sections generated for the end of the file keep their order exactly if there are at most two |
| LabOrder.TailOfThree | alred/lab_transform.py:779-780 | three of them come out as first, third, second |
| LabNtp.BuildNtpReplacements | alred/lab_transform.py:236-300 | preserving gives the nonempty source lines in order; otherwise the source servers are the entries with an address, in order; accepted exactly if every named one is there once and named once, a replace has enough source servers, and every inheriting server has a partner; partners are one to one, named ones by address, the others in order and as early as possible; each line has the partner's options under the server's own |
| LabNtp.PairSources | alred/lab_transform.py:251-266 | the named servers are paired exactly if their addresses occur once each and differ |
| SecretScan.ScanText | alred/secret_scan.py:226-328 | the findings are exactly those that the lines call for: one for each private key, and outside private keys the report of each line under the lines that enclose it, or in the banner it is in |
| SecretScan.SanitizeText | alred/secret_scan.py:347-363 | the same findings, and the output has one marker for each private key and each line of which something high is reported, and every other line as it was |
| SecretScan.FindingsAre | alred/secret_scan.py:226-328 | a finding is made exactly if the lines call for it, said without the scanner: enclosing lines are those with a smaller indentation than the line and all lines of configuration between |
| SecretScan.VerdictIs | alred/secret_scan.py:170-318 | what the scanner makes of each line: direct rules and, under enclosing lines, BGP passwords and key strings unless it is a policy line, common rules, low rules; banners apart |
| SecretScan.KeptIs | alred/secret_scan.py:278-280 | when a line has popped the stack, what stays are exactly the lines that enclose it |
| SecretScan.SanitizedIs | alred/secret_scan.py:347-363 | the sanitized lines are those markers and lines, in order |
| SecretRescan.RescanIsCleanIff | alred/secret_scan.py:226-363 | rescanning sanitized text finds nothing of high confidence exactly if the context rule matches no line that was left in place under the parents that were left in place |
| SecretRescan.SecondScan | alred/secret_scan.py:226-363 | the state of the second scan after each line, and whether it has found something of high confidence, from the first scan alone |
| SecretRescan.RescanIsClean | alred/secret_scan.py:347-363 | it finds nothing, in particular, as long as no line that enters the stack right after a redacted one that popped parents is indented deeper |
| SecretRescan.RescanIsCleanForText | alred/secret_scan.py:347-363 | outside NX-OS text it finds nothing of high confidence in any case |
| SecretRescan.RedactionUncoversParent | alred/secret_scan.py:270-318 | without that condition it does not hold: a redacted line between a key chain and a deeper key string popped the chain, its marker does not, and the second scan finds the key string |
| SecretRescan.UncoveringExists | alred/secret_scan.py:270-318 | three lines of a running-config are of that kind |
| SecretRescan.ContextMonotone | alred/secret_scan.py:170-186 | fewer parents never make the context rule say more |
| SecretRescan.MarkerLine | alred/secret_scan.py:347-363 | a marker is inert in every state of the scanner |
| SecretScan.ParentsIncrease | alred/secret_scan.py:270-318 | the stack of parents is strictly increasing in indentation |
| SecretScan.LookUp | alred/secret_scan.py:347-363 | the dictionary has an entry for a line outside private keys exactly if a high finding starts there, and the entry of a private key reaches to its end |
| LinkMerge.Merge | alred/parsing.py:1098-1203 | both lists hold one row for each link that is, or is not, claimed in both directions, in the order of the directions visited first: graded by what each source says about the two directions, made from the last record of the preferred source, with the warnings it had and each mismatch with the other source's records of its local endpoint once and in their order |
| LinkMerge.MergedRowsAre | alred/parsing.py:1098-1203 | the same for the function that the loop computes |
| LinkMerge.OneRowPerLink | alred/parsing.py:1127-1203 | every claimed link has a row, graded by the two key sets, in the confirmed list if both directions are claimed and among the candidates otherwise, and none in the other list |
| LinkMerge.RowsAreDistinct | alred/parsing.py:1127-1203 | no link has two rows in one list |
| LinkMerge.RowsAreClaimed | alred/parsing.py:1127-1203 | every row is for a claimed direction and is in the list its keys call for |
| LinkMerge.ReversalKeepsRows | alred/parsing.py:1136-1177 | reversing every record leaves each link in the same list with the same grade |
| LinkMerge.CanonicalForgetsOrder | alred/portable_evidence.py:94-108 | the canonical records of a merge output are the same for every order of its rows, although the sort key leaves fields out |
| LinkMerge.CanonicalKeyTellsLink | alred/portable_evidence.py:100-107 | equal sort keys mean the same undirected link |
| LinkMerge.CanonicalKeyIs | alred/portable_evidence.py:94-108 | the sort key has the smaller endpoint first whichever way the row reads, then protocol, evidence and the joined warnings |
| LinkDiagnostics.BuildLinkDiagnostics | alred/link_diagnostics.py:265-626 | the report holds exactly the diagnostics that the claimed directions call for, and the claims that cannot be judged with the reason; the result is a conflict, a warning or a pass exactly as their codes say; it is a pass exactly if all evidence was collected and LLDP and descriptions agree but for excused claims, and with all local nodes in inventory exactly if they agree |
| LinkDiagnostics.ReportedIsCalledFor | alred/link_diagnostics.py:346-529 | what the two indexes lead to is what the claims call for, code by code; a description is answered if the named endpoint claims its endpoint, or without an interface if any endpoint of the host claims its host, without an interface or with the right one |
| LinkDiagnostics.AnsweredIs | alred/link_diagnostics.py:190-201 | the search for a reciprocal description finds one exactly if the claims hold one |
| LinkClaims.SilenceMeansJudgedAgreement | alred/link_diagnostics.py:346-529 | for every input, nothing is reported or left open exactly if each endpoint claims one LLDP peer that claims it back, has one description, which names the peer's host and no other interface of it or, without a peer, is answered, and nothing is ambiguous - but for claims of hosts nothing was collected from, about peers that could have answered |
| LinkClaims.SilenceMeansAgreement | alred/link_diagnostics.py:346-529 | with all local nodes in inventory nothing is excused: nothing is reported or left open exactly if the LLDP claims form an involution, every description beside LLDP agrees with it, every other one is answered, and nothing is ambiguous |
| LinkDiagnostics.AgreementGivesHighConfidence | alred/parsing.py:1136-1141 | where the LLDP claims form an involution the merge confirms every LLDP record as a link of high confidence |
| LinkClaims.OutsideInventoryIsNotJudged | alred/link_diagnostics.py:385-443 | a host outside the inventory can claim a neighbour that does not answer, and the result is a pass |
| LinkDiagnostics.BuildIndex | alred/link_diagnostics.py:290-303 | the index holds exactly the named local endpoints with their remotes, sorted and without duplicates |
| EvidencePackage.CreatePackage | alred/portable_evidence.py:1053-1159 | the package holds the last output of each name, the generated documents, and a manifest with the path, digest, disclosure and number of findings of every output, the digests of all resources and the result of scanning every content member as what it is; it is written exactly if no finding of high confidence lies outside the verbatim configurations, the manifest is valid and all names are safe |
| EvidencePackage.PackageIs | alred/portable_evidence.py:1053-1159 | the same for the functions that the assembly computes |
| EvidencePackage.VerifyPackage | alred/portable_evidence.py:1175-1286 | members and manifest are returned exactly if the archive unpacks to them, the checksum file names every other member with its digest, the declared outputs and resources are there with their digests under different paths, the declared scan is that of the members, and nothing high lies outside verbatim members |
| EvidencePackage.SplitAtBreak | alred/portable_evidence.py:1204-1212 | the lines of the checksum file end at each line break, a carriage return and line feed being one |
| EvidencePackage.CreatedIsVerified | alred/portable_evidence.py:1088-1286 | what was created is accepted by the reader and its scan is verified, for every set of outputs, exactly if the outputs have different paths and no member name contains a line break; then the very members and manifest come back |
| EvidencePackage.PackageAccepted | alred/portable_evidence.py:1175-1256 | the same for the unpacked members |
| EvidencePackage.ScanAgrees | alred/portable_evidence.py:1259-1286 | the reader's scan of a written package is the one in its manifest, although manifest and checksums were not there when the producer scanned |
| EvidencePackage.ChecksumsAgree | alred/portable_evidence.py:1204-1222 | the checksum lines read back as the digests of all other members exactly if no member name contains a line break |
| EvidencePackage.OutputsHaveDistinctPaths | alred/portable_evidence.py:831-835 | one output per host and command, and host names without a slash, give distinct paths |
| EvidencePackage.ChecksumsPinMembers | alred/portable_evidence.py:1218-1222 | with an injective digest, two accepted packages with the same checksum file have the same members |
| SemanticDiff.SemanticDifferencePaths | alred/rollback_verification.py:89-125 | for whole documents, the texts are exactly those of the token lists that lead both through containers of one kind to a place where one stops short or the two differ and not further down |
| SemanticDiff.DiffIsExact | alred/rollback_verification.py:89-125 | a token list is in the result exactly if it leads both documents through containers of one kind to a place where one stops short or the two differ and not further down |
| SemanticDiff.EmptyMeansAlike | alred/rollback_verification.py:89-125 | no path is found exactly if the documents are equal in Python's sense, in which True equals 1 |
| SemanticDiff.DiffPrefixFree | alred/rollback_verification.py:89-125 | the paths of one comparison are distinct and none is a prefix of another |
| SemanticDiff.DiffersThere | alred/rollback_verification.py:89-125 | every path of the result leads to a value in one of the documents, and where it leads to one in both, the two are unequal |
| SemanticDiff.EscapeRoundTrip | alred/rollback_verification.py:10-11 | escaping can be undone (section 4 of RFC 6901) and leaves no slash in a token |
| SemanticDiff.PathTextTells | alred/rollback_verification.py:10-125 | two path texts are equal exactly if the token lists are, except that the whole document and an empty key are both written as a slash |
| SemanticDiff.PathTextIs | alred/rollback_verification.py:10-11 | a path is written as a slash and the escaped token for each of its tokens |
| SemanticDiff.TextsDistinct | alred/rollback_verification.py:89-125 | within one result the texts are distinct all the same |
| SemanticDiff.RawConfigDiffCounts | alred/rollback_verification.py:128-144 | for every description of the change by opcodes, the counts are the numbers of lines that are deleted or replaced and inserted or put in their place; they account for the two lengths, and if both are zero the configurations are equal |
| SemanticDiff.BuildDeviceVerification | alred/rollback_verification.py:147-167 | no path is listed exactly if the models are equal or both are missing; zero counts mean equal raw configurations |
| ClabRuntime.WaitForNodes | alred/clab_runtime.py:360-443 | if each sleep advances the clock by the poll interval, there are at most ceil((largest honoured delay + health timeout) / poll interval) + 1 iterations; a normal return maps exactly the awaited nodes to ready states, each as it was seen at an iteration before which nothing was settled about the node; a problem with a node is that it was seen failed, or late and neither ready nor failed, at the last iteration |
| ClabRuntime.LoadDeadlines | alred/clab_runtime.py:120-143 | a negative honoured delay and a topology without nodes are reported exactly when they occur |
| ClabRuntime.BoundMeans | alred/clab_runtime.py:384-443 | that number of iterations is the largest for which the pauses between all but the last two leave time |
| ClabRuntime.WaitingIsBounded | alred/clab_runtime.py:393-443 | a node still waiting after an iteration leaves room for one more within the bound |
| ClabRuntime.DecidedOnce | alred/clab_runtime.py:408-435 | the iteration that decides a node is unique |
| ClabRuntime.ReadyIsSettled | alred/clab_runtime.py:408-443 | a normal return excludes every problem with a node, so the outcome is settled by what is seen of the nodes |

## Left out

- SecretRescan.RescanIsCleanIff: stated on lines; the joined text also loses trailing blanks.
- LabTransform.Idempotent: a replaced access class and preserved NTP servers are not claimed (preserved servers are listed once more by each pass), and replaced NTP servers only where both passes generate the same lines. The rendered sections are taken to be recognised as their own category.
- OperationRun.RunKeepsInv: the journal's transition lists, timestamps and the free text of reasons are not part of the state.
- OperationRun.ClosedButNotFinal: that something can be sent is said of the workflow; the artifacts, approvals and snapshots that a command checks besides are taken to be in order, and the devices to accept it.
- ManagedConfig.Bench.ExecuteSerialDevices: the order of devices is a list without repetition, as its callers build it from the keys of the plan; the callback before the first command is always there; interrupts belong to OperationRun.
- ManagedConfig.Bench.ExecuteApprovedApply: begins at its check of the workflow state; the hash, approval and capability checks before it refuse without touching state.
- OverlayRender.RenderDevice: VLAN keys are integers, and the list of observed interfaces is left to follow the SVIs; the checks before the resources (platform, version, one BGP process, route maps, replication) are not part of it.
- OverlayEffect.RollbackRestores: parts of different kinds of a device configuration are taken not to interact, and a repeated `vrf member` to leave a matching SVI alone.
- OverlayEffect.TemplateRestores: an SVI has an address key exactly if its list is not empty, as the ChangeSet schema demands; an empty list under a key, which it refuses, is not part of this model.
- RouteTargets.RouteLeaks: the operational state and the prefix summary of a leak are not part of it.
- LinkDiagnostics.BuildLinkDiagnostics: the link state, texts, identifiers and the order of diagnostics are not part of it; diagnostics are told apart by what their identifiers are computed from.
- EvidencePackage.VerifyPackage: manifests without a declared scan or with another catalog, which are accepted with a remark, and members that are not UTF-8 text are not part of this model.
- SemanticDiff.DiffIsExact: floats are real numbers, so NaN, which differs from itself, and the infinities are left out.
- SemanticDiff.RawConfigDiffCounts: the sequence matcher is any matcher that describes the change; that it finds no difference between equal lists is its own promise.
- ClabRuntime.WaitForNodes: status messages, and parsing what the runtimes print.
- Device connections, SSH and NX-API, containerlab and Docker calls: represented by traces and oracles.
- File system details below one atomic step, tar and gzip bytes, YAML and JSON text, JSON Schema, hash functions and regular expressions: parameters.
- The qualification flow, which repeats the approved apply, save and rollback, and what the save session and the rollback verification compute; OperationRun has them as workflow steps.
- Rendering of Markdown, CSV, diagrams and templates other than the effect of the two Overlay templates, the CLI, inventory loading, capability lookup and target selection.
