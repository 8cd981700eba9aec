# Warm IP pools of the VPC resource controller, verified

The VPC resource controller keeps, for every Windows node, a pool of IPv4 addresses that are attached to the node
before any pod asks for one. An address is *warm* (ready to be assigned, listed under its group), *used* (held by a
pod), *cooling* (freed less than thirty seconds ago) or belongs to a group that an asynchronous job is creating or
deleting. In secondary-IP mode a group is one address; in prefix-delegation (PD) mode it is a /28 prefix of sixteen.

Several of the pool's guards compare with `==` where one expects `>=`, and one division by sixteen silently drops
remainders. They are right only because of an invariant that holds in every run. This project states that invariant,
proves that every step keeps it, and derives what the pool promises from it. Where the code does not keep a promise,
the exact condition under which it does is proved instead.

## How the project is laid out

- `PoolState`, `Accounting`: the state of a pool as a value; exclusive ownership, whole groups, and the counting
  lemmas (the pigeonhole over sixteen addresses among them).
- `PoolOps`: the meaning of every operation of the pool as a function or, where Go's map order decides, a relation.
- `WarmPools` (`WarmPool.dfy`): the pool object itself, with its fields, its loops and its in-place updates. Each
  method is proved to do what `PoolOps` says.
- `Ownership`, `ReSync`: what each operation does to the set of owned addresses.
- `Runs`, `Safety`, `CoolDowns`, `Targets`, `Progress`: runs of interleaved calls and job completions, the invariant
  `Sound`, and what follows from it.
- `DesiredState`: where a reconcile takes the pool, in terms of the configuration as it was given.
- `Flags`: what raises and lowers the pool's flags over a run, what never changes, and what jobs carry.
- `ReSyncRace`: the exact condition under which a re-sync is safe, with a concrete run in which it is not.
- `Overflow`: the exact condition under which the 64-bit arithmetic of a prefix pool's deviation gives the true value.
- `Handler`, `HandlerRuns`: pod events, as single calls and as runs in which the calls of many events interleave.
- `HandlerAnswers`: what a pod event is answered and which job it submits, in terms of the pool it finds.
- `StaleNotes`: the exact condition under which an annotation call lets two pods come to be annotated alike.
- `PrefixProvider`, `ConfigLoader`: start-up and the ConfigMap.
- `Prefixes`, `GoMath`, `GoStrings`, `SetUtils`, `Collections`: prefix expansion and the utilities it rests on.
- `PodCache`: the independent cache of stripped-down pods.

A `World` is a pool, the jobs in flight and the clock. A `Run` starts with a pool as a provider builds it (`Start`;
`PrefixProvider.InitPool` is proved to build one) and takes any number of steps: assign, free, process the cool-down
queue, reconcile, replace the configuration, complete a create or delete job, complete or abort a re-sync, advance the
clock. Every step is atomic because every method holds the pool's lock. `SetToDraining` and `SetToActive` release the
lock between replacing the configuration and reconciling, so in a run they are two steps. A `NodeRun` adds the pods'
annotations and the create events under way.

## What is assumed of the environment

- Each create, delete and re-sync job completes at most once (`Step` removes it from the jobs in flight).
- A create reports at most the requested number of groups, new to the pool and well formed: an aligned /28 in PD mode,
  a nonempty name in secondary mode (`CreatedOK`). A delete reports only groups of its own that it failed to delete
  (`UndeletedOK`).
- The listing a re-sync is given has no duplicates, its readable entries are well formed, it fits the node together
  with the groups in use, and in PD mode it names every prefix that has a used address (`UpstreamOK`). A re-sync leaves
  used addresses alone, so without the last part a prefix could be held in part.
- In PD mode the capacity is a multiple of sixteen, as `pkg/provider/prefix/provider.go:156` computes it.
- The tolerated deviation is not negative; the shipped configurations use zero.
- The clock never goes back. Time is a number of nanoseconds. `ProcessCoolDownQueue` reads it anew for each entry.
- Create events of one pod are handled one after the other, and nobody but the handler writes the annotations.
  Deletes may come at any time, even during a create, and carry any resource ID.
- Capacity and targets are 64-bit integers, with wrap-around wherever a target takes part. Sums of the pool's own
  counters cannot wrap in a run: the total is at most the capacity (`Safety.RunIsAccounted`).
- No re-sync takes effect while a create or delete is in flight (`Settled`). The code does not ensure this by itself;
  one outstanding re-sync at a time does (`Safety.SingleReSyncIsRun`), and the condition cannot be weakened
  (`ReSyncRace.ReSyncIsSafeIff`).

## Where the code does not do what it promises

- Several re-syncs: every reconcile of a pool whose flag is up emits another re-sync job, and `ReSync` checks the flag
  but not the pending counters. A second re-sync can therefore find the flag up again while a create is in flight, the
  created address enters the warm pool twice, and two pods receive it. `ReSyncRace.TwoReSyncsShareAnAddress` is such a
  run from a fresh pool; `ReSyncRace.ReSyncIsSafeIff` says exactly which re-syncs are safe.
- Secondary targets: `docs/windows/secondary_ip_mode_config_options.md` promises a default of three for either target
  when it is unspecified or invalid. With the other one configured the code leaves it at zero
  (`ConfigLoader.SecondaryWarmTargetIsZeroIff`, `ConfigLoader.SecondaryMinimumIsZeroIff`), and without a warm target a
  pool whose minimum is in use never asks for another address (`ConfigLoader.SecondaryStarvesIff`).
- Numbers out of range: the log messages of the ConfigMap parser say that an unreadable number counts as zero. Go's
  `strconv.Atoi` returns the nearest bound for a number that is out of range, and for any text whose digits exceed
  2^64-1 before a stray character, and the code uses it (`ConfigLoader.UnreadableCountsIff`,
  `ConfigLoader.OneBeyondCountsAsLargest`, `ConfigLoader.StrayCharacterCountsAsLargest`).
- Targets beyond capacity: `docs/windows/prefix_delegation_config_options.md` promises that they are cut down to the
  capacity of the node. Near the 64-bit bound the rounding to prefixes or the product with sixteen wraps. The deviation
  is right exactly under the condition of `Overflow.DeviationIsExactIff`; beyond it a larger warm-prefix target empties
  the pool (`Overflow.LargestPrefixTargetEmpties`), a fresh pool never gets a prefix
  (`ConfigLoader.LargestWarmPrefixTargetStarves`), and a warm address target counts for nothing
  (`Overflow.WrappedWarmTargetIsIgnored`).
- `HandleCreate` for a pod that already holds an address: the error it returns is the shadowed one of the successful
  fetch, that is, none, even when the pod carries no annotation (`pkg/handler/warm.go:92-103`).
  `Handler.DoneIsAnnotatedIff` says exactly when a create event ends well without an annotation, and
  `HandlerRuns.DoneIsAnnotated` that this is not reached in runs.
- AnnotatePod may fail after the annotation was written. The handler then frees the address and leaves the annotation,
  and another pod can be given the address: `StaleNotes.AnnotationIsSafeIff` says that exactly those calls are harmful,
  and `StaleNotes.SharedAnnotationRun` builds such a run from any node with a warm address.
- A prefix pool without addresses for which no prefix is known to be available, which is how every pool is constructed,
  turns pods away without asking for a reconcile, so pod events alone never wake it (`Handler.PodEventsLetItSleep`).
- Prefix expansion counts up in the last octet only. The result consists of IPv4 addresses exactly when the block ends
  within that octet (`Prefixes.ExpandStaysInOctet`), so not for prefixes shorter than /24.
- `CeilDivision` rounds negative numbers toward zero and wraps for large ones (`GoMath.CeilDivisionAtMax`);
  `GoMath.CeilDivisionIsCeiling` says exactly when it is the ceiling, and `Targets.WantedIsFewest` when the pool's own
  uses are.
- The nil check inside the backward removal loop of `ReSync` cannot fire (`pkg/pool/pool.go:205`).

## Model

| member | source | states |
|---|---|---|
| `Safety.RunIsSound` | pkg/pool/pool.go:133-546 | Every world of every run satisfies the invariant: exclusive ownership, whole groups, exact pending counters, capacity, sorted queue, deletions disjoint from what is held. |
| `Runs.StepKeeps` | pkg/pool/pool.go:133-528 | Each of the nine kinds of step keeps the invariant, a re-sync only if it is ignored or nothing is in flight. |
| `Runs.ReconcileKeeps` | pkg/pool/pool.go:415-528 | A reconcile of either mode keeps the invariant, job in flight included. |
| `Runs.CompleteKeeps` | pkg/pool/pool.go:327-384 | The completion of a create or delete, successful or not, keeps the invariant. |
| `Runs.ReSyncStepKeeps` | pkg/pool/pool.go:133-232 | A re-sync with nothing in flight keeps the invariant. |
| `Runs.CreateIsWhole` | pkg/pool/pool.go:457-480 | Create amounts and the remaining room are multiples of the group size, so the division by sixteen loses nothing, and the amount is the smaller of deviation and room. |
| `Runs.CountsZero` | pkg/pool/pool.go:427-438 | A zero count of created or deleted groups in flight means that no such job is in flight, and conversely. |
| `Safety.NoSharedAddress` | pkg/pool/pool.go:236-324 | In every run no IP address is held by two requesters, or held while it is warm or cooling. |
| `Safety.GroupsAreWhole` | pkg/pool/pool.go:347-378 | In every run each held group has exactly its own addresses, sixteen to a prefix, spread over warm, used and cooling. |
| `Safety.DeleteTakesFreeGroups` | pkg/pool/pool.go:482-523 | A delete job emitted in any run names only groups whose addresses are all warm: none is used or cooling. |
| `Safety.DeletingIsDisjoint` | pkg/pool/pool.go:500-511 | While a delete is in flight no address of its groups is anywhere in the pool. |
| `Safety.RunIsAccounted` | pkg/pool/pool.go:366-378 | In every run the total is within capacity, and each pending counter is the group size times what the jobs in flight ask for, never negative, and zero exactly when none is in flight. |
| `Safety.TotalIsConserved` | pkg/pool/pool.go:419-422 | Assign, free, cool-down and delete keep the total exactly, a completion never raises it, a create raises it by its reservation. |
| `Safety.ReSyncHaltsChanges` | pkg/pool/pool.go:427-438 | With the flag up a reconcile emits no create or delete; a re-sync is emitted only with the flag up and no create or delete in flight. |
| `Flags.FailureRaisesFlag` | pkg/pool/pool.go:333-338 | Over any steps, a job that fails, create or delete, leaves the re-sync flag up until a re-sync is done. |
| `Flags.OnlyFailureRaisesFlag` | pkg/pool/pool.go:133-142 | Nothing but a failed job raises the flag, nothing but a re-sync lowers it, and every re-sync does. |
| `Flags.ReSyncIsEmittedIff` | pkg/pool/pool.go:427-438 | In every run a reconcile asks for a re-sync if and only if the flag is up and no create or delete is in flight. |
| `Flags.FailureIsReSynced` | pkg/pool/pool.go:427-438 | In every run, after a failed job the next reconcile that finds nothing being created or deleted asks for a re-sync of this node, unless one has been done. |
| `Flags.AvailabilityIsReported` | pkg/pool/pool.go:340-345 | Over any steps a prefix pool believes a prefix available exactly when the last completed job said so; a secondary pool never changes. |
| `Flags.IdentityStays` | pkg/pool/pool.go:114-126 | No step changes the node, the capacity or the mode of the pool. |
| `Flags.JobNamesNode` | pkg/worker/jobs.go:110-134 | Every emitted job names the pool's node; only deletes name groups, and they count them. |
| `Safety.SingleReSyncIsRun` | pkg/pool/pool.go:128-142 | Runs with at most one outstanding re-sync satisfy the condition on which every theorem about runs rests. |
| `Safety.ReSyncRunsQuietly` | pkg/pool/pool.go:128-142 | In those runs ReSync finds the flag up, both counters at zero and no other job in flight. |
| `Safety.FreedAtMostOnce` | pkg/pool/pool.go:299-324 | Over any steps, effective frees of a requester plus what it holds equal its assignments plus what it held at first. |
| `Safety.ReconcileFrame` | pkg/pool/pool.go:415-528 | A reconcile leaves used and cooling addresses, the capacity and the flags alone. |
| `ReSyncRace.ReSyncIsSafeIff` | pkg/pool/pool.go:133-142 | A re-sync is safe for every listing it may be given if and only if the flag is down or both pending counters are zero. |
| `ReSyncRace.TwoReSyncsShareAnAddress` | pkg/pool/pool.go:427-438 | A run from a fresh pool after which a re-sync beside a create in flight lets two requesters receive one address. |
| `ReSyncRace.CreateMakesUnsafe` | pkg/pool/pool.go:191-196 | In any sound world, a needed re-sync beside a create in flight can make an address warm twice. |
| `ReSyncRace.DeleteMakesUnsafe` | pkg/pool/pool.go:191-196 | In any sound world, a needed re-sync beside a delete in flight can bring back a group that is being deleted. |
| `ReSync.ReSyncConverges` | pkg/pool/pool.go:133-232 | For a duplicate-free listing: used unchanged, cooling becomes cooling within upstream, warm the rest of upstream, everything owned is upstream plus used, ownership exclusive. |
| `ReSync.ReSyncIdempotent` | pkg/pool/pool.go:133-232 | A second re-sync with the same listing changes nothing. |
| `ReSync.ReSyncKeeps` | pkg/pool/pool.go:133-232 | A re-sync leaves whole groups: those listed and those in use. |
| `ReSync.PurgeQueueOrder` | pkg/pool/pool.go:220-229 | Any two entries that survive in the cool-down queue were in that order before. |
| `ReSync.PurgeWarm` | pkg/pool/pool.go:202-218 | Removal takes exactly the deleted resources out of the warm lists, keeps entries under their own keys, and drops exactly the keys it empties. |
| `Ownership.AssignKeeps` | pkg/pool/pool.go:236-286 | An assignment keeps ownership exclusive, the set of known addresses and the keys of the warm pool, and touches only used and warm. |
| `Ownership.FreeKeeps` | pkg/pool/pool.go:299-324 | A free, effective or refused, keeps exclusivity and the set of known addresses. |
| `Ownership.CoolDownKeeps` | pkg/pool/pool.go:387-411 | Processing the queue keeps exclusivity and the set of known addresses. |
| `Ownership.AppendKeepsFront` | pkg/pool/pool.go:395-398 | Cooled or newly listed addresses come after those that were warm before. |
| `Ownership.AddKeepsFront` | pkg/pool/pool.go:349-362 | So do the addresses a job reports. |
| `Ownership.UpdateKeeps` | pkg/pool/pool.go:347-364 | Reported groups that are new to the pool become whole warm groups, and the pool holds them beside what it held. |
| `Ownership.DeleteKeeps` | pkg/pool/pool.go:498-511 | Dropping wholly free groups leaves the pool with the other groups, whole. |
| `Accounting.OwnedCount` | pkg/pool/pool.go:420-422 | The three lengths the pool adds up count distinct addresses. |
| `Accounting.WholeCount` | pkg/pool/pool.go:688-691 | Warm, used and cooling addresses number exactly the group size times the groups held. |
| `Accounting.FreeGroupIsWhole` | pkg/pool/pool.go:574-581 | A warm list as long as its group is all of the group, so no address of it is used or cooling. |
| `Accounting.UsedFits` | pkg/pool/pool.go:693-696 | The used addresses fit the groups that have one. |
| `Accounting.UsedAndFreeGroups` | pkg/pool/pool.go:708-711 | Groups in use and wholly free groups are different groups. |
| `PoolState.AddressesIdentify` | pkg/pool/pool.go:146-166 | Two members of well-formed groups with one address are one resource of one group. |
| `CoolDowns.MovesExactlyCooled` | pkg/pool/pool.go:395-405 | On a sorted queue with readings of a clock that never goes back, stopping at the first young entry moves all and only the entries that have cooled when the clock is last read. |
| `CoolDowns.CoolDownIsExact` | pkg/pool/pool.go:387-411 | In every run ProcessCoolDownQueue makes warm exactly the addresses whose period has elapsed when it last reads the clock, a time within the step, and keeps exactly the others. |
| `CoolDowns.NoEarlyReuse` | pkg/pool/pool.go:299-324 | In every run an address is not assigned again within 30,000,000,000 nanoseconds of being freed, unless a re-sync dropped it meanwhile. |
| `CoolDowns.DropsIffUnlisted` | pkg/pool/pool.go:220-229 | A re-sync drops a cooling address if and only if it takes effect and the listing lacks the address. |
| `Targets.DeviationIs` | pkg/pool/pool.go:637-767 | In every sound world the deviation of either mode is the wrapped product of the group size and one formula over group counts: no division by sixteen rounds anything away. |
| `Targets.WantedIsFewest` | pkg/pool/pool.go:693-706 | The prefixes wanted are the fewest that cover the warm target on top of the used addresses and the minimum target, if and only if both fit 64 bits after rounding. |
| `Overflow.DeviationIsExactIff` | pkg/pool/pool.go:637-722 | In every sound world the deviation is that of exact arithmetic if and only if the targets fit, or both address targets wrap and the product wraps back. |
| `Overflow.LargestPrefixTargetEmpties` | pkg/pool/pool.go:676-686 | A prefix pool told to keep 2^63-1 warm prefixes never asks for one and has no wholly free prefix left after a reconcile. |
| `Overflow.WrappedWarmTargetIsIgnored` | pkg/pool/pool.go:693-706 | A warm address target whose sum wraps counts for nothing; only the minimum target is left. |
| `Runs.SecondaryInRange` | pkg/pool/pool.go:749-764 | In every sound world no value computed on the way to the secondary deviation leaves the 64-bit range. |
| `Targets.SecondaryDeviationIs` | pkg/pool/pool.go:726-767 | The short and over computation is max(warm target - available, minimum target - assigned), for every pool state. |
| `Targets.SecondaryFree` | pkg/pool/pool.go:494-495 | In secondary mode the wholly free groups are as many as the warm addresses. |
| `Targets.NormalIsStable` | pkg/pool/pool.go:642-670 | Defaulting the targets twice is defaulting them once, and does not change what is wanted. |
| `Targets.AfterReconcile` | pkg/pool/pool.go:456-523 | After a reconcile the deviation is zero, or positive with the node full, or negative with no free group, or was tolerated and unchanged; for every configuration, wrapping or not. |
| `Targets.ReconcileIsFixedPoint` | pkg/pool/pool.go:415-528 | After any reconcile without the flag, a second one returns NoReconcile and changes nothing, in both modes and for every configuration. |
| `DesiredState.PrefixesMeetTargets` | pkg/pool/pool.go:637-722 | In every sound world of an active prefix pool with fitting address targets, after a reconcile the prefixes held or being created are the fewest that cover used plus warm and the minimum as configured, with 1 and 3 for targets that are not positive; or too few with the node full, or too many with none wholly free. |
| `DesiredState.WarmPrefixesMeetTarget` | pkg/pool/pool.go:675-686 | With a warm-prefix target alone, the wholly free prefixes and those being created are as many as configured; or too few with the node full, or too many with none free. |
| `DesiredState.SecondaryMeetsTargets` | pkg/pool/pool.go:726-767 | In every sound world of an active secondary pool, after a reconcile the larger shortfall of the two targets as configured, with 3 for negative ones, is zero; or positive with the node full, or negative with no address warm. |
| `PoolOps.NormalIsGiven` | pkg/pool/pool.go:642-670 | The in-place defaulting leaves the configured targets, or the defaults for those that are unusable. |
| `Targets.FullIsUnchanged` | pkg/pool/pool.go:440-443 | At capacity without counting warm addresses, a reconcile does nothing. |
| `Progress.AssignSucceedsIff` | pkg/pool/pool.go:236-286 | In every sound world an assignment succeeds if and only if the requester holds nothing and some address is warm. |
| `Progress.FreePrefixBrokenLast` | pkg/pool/pool.go:584-614 | In PD mode, if some partly used prefix has a warm address, the address comes from such a prefix. |
| `Progress.SmallestGroupFirst` | pkg/pool/pool.go:584-614 | In PD mode the address is the first of a nonempty group that no other nonempty group undercuts. |
| `Progress.DeleteKeepsTargets` | pkg/pool/pool.go:482-523 | A reconcile that deletes leaves a pool that meets its effective targets if and only if they fit 64 bits after rounding. |
| `Progress.DrainingNeverCreates` | pkg/pool/pool.go:531-537 | A draining pool never emits a create. |
| `Progress.DrainingDrains` | pkg/pool/pool.go:531-537 | After the reconcile of SetToDraining, with no re-sync required, no group is wholly free; in secondary mode no address is warm. |
| `Progress.DrainingSurvivesInterleaving` | pkg/pool/pool.go:531-537 | In every run, whatever happens between the two locked sections of SetToDraining, its reconcile creates nothing and, with no re-sync required, leaves no wholly free group. |
| `Progress.EmptyPoolRefillsIff` | pkg/pool/pool.go:254-278 | An active pool with no tolerated deviation and no re-sync required that reports ErrWarmPoolEmpty with nothing cooling or being created asks for at least one group at the next reconcile, if and only if an effective target calls for one and its rounding does not wrap; a PD pool whose targets fit always does. |
| `Progress.EmptyRefusalReconcilesIff` | pkg/pool/pool.go:258-267 | A prefix pool without a warm group refuses every request, and asks for a reconcile if and only if a prefix is available and no earlier guard refuses. |
| `SetUtils.Difference` | pkg/utils/set.go:21-33 | The elements of the first list outside the second, in order and with repetitions. |
| `WarmPools.NumResourcesFromMap` | pkg/pool/pool.go:770-776 | The summed lengths, whatever the iteration order. |
| `WarmPools.FindFreeGroup` | pkg/pool/pool.go:574-581 | Each group of full length, once, and no other. |
| `WarmPools.FindMinGroup` | pkg/pool/pool.go:584-597 | A nonempty group whenever there is one, and one no longer than any other unless a nonempty group has the empty name. |
| `WarmPools.OwnedIsLabelled` | pkg/pool/pool.go:276-278 | The invariant of runs implies what the methods ask of their pool, so no assigned resource is anonymous. |
| `WarmPools.WarmPool.constructor` | pkg/pool/pool.go:114-126 | The pool starts with the given contents, an empty queue, nothing pending and both flags down. |
| `WarmPools.WarmPool.AssignResourceFromMinGroup` | pkg/pool/pool.go:600-614 | The first address of a smallest nonempty group is taken, or none exists; an emptied group keeps its key. |
| `WarmPools.WarmPool.AssignResourceFromAnyGroup` | pkg/pool/pool.go:617-634 | The first address of some nonempty group is taken, or none exists. |
| `WarmPools.WarmPool.AssignResource` | pkg/pool/pool.go:236-286 | Refines AssignStep: the guards in order, then the choice of the mode. |
| `WarmPools.WarmPool.Refuses` | pkg/pool/pool.go:240-267 | The guards in order, with their errors and whether they ask for a reconcile. |
| `WarmPools.WarmPool.GetAssignedResource` | pkg/pool/pool.go:288-296 | What the requester holds, and whether it holds anything. |
| `WarmPools.WarmPool.FreeResource` | pkg/pool/pool.go:299-324 | Refines Freed: a stranger and a foreign address are refused with their own errors, anything else is queued with the current time. |
| `WarmPools.WarmPool.UpdatePool` | pkg/pool/pool.go:327-384 | Refines Updated: flag, availability, added groups and the released reservation. |
| `WarmPools.WarmPool.AddToWarm` | pkg/pool/pool.go:349-362 | The groups are appended in order, expanded in PD mode. |
| `WarmPools.WarmPool.ResourcesOf` | pkg/pool/pool.go:350-360 | One group as resources; an unreadable prefix yields none. |
| `WarmPools.WarmPool.ProcessCoolDownQueue` | pkg/pool/pool.go:387-411 | Refines CooledDown for any readings of the clock, one per entry, and reports whether entries remain. |
| `WarmPools.WarmPool.ReadUpstream` | pkg/pool/pool.go:145-166 | The listing as resources, without empty and unreadable entries. |
| `WarmPools.WarmPool.LocalResources` | pkg/pool/pool.go:169-178 | Exactly the resources the pool owns, as many entries as the queue, the used map and the warm lists have together. |
| `WarmPools.WarmPool.AddNew` | pkg/pool/pool.go:191-196 | New resources are appended under their own groups. |
| `WarmPools.WarmPool.RemoveFromWarm` | pkg/pool/pool.go:202-218 | The backward loop stays in bounds and removes every occurrence; an emptied group loses its key. |
| `WarmPools.WarmPool.RemoveFromQueue` | pkg/pool/pool.go:220-229 | The backward loop stays in bounds and removes every occurrence, keeping the order of the rest. |
| `WarmPools.WarmPool.RemoveDeleted` | pkg/pool/pool.go:198-231 | All deleted resources leave the warm pool and the queue; used is not touched. |
| `WarmPools.WarmPool.ApplyDifferences` | pkg/pool/pool.go:186-231 | New resources are added and deleted ones removed, in that order; nothing is touched when both lists are empty. |
| `WarmPools.WarmPool.ReSync` | pkg/pool/pool.go:133-232 | Refines ReSynced, including the ignored duplicate and the in-sync early return. |
| `WarmPools.WarmPool.GetPDDeviation` | pkg/pool/pool.go:637-722 | Refines PDDeviation with its 64-bit wrap-around and stores the defaulted targets. |
| `WarmPools.WarmPool.DefaultPDTargets` | pkg/pool/pool.go:640-670 | Which targets are defined, and the defaults of those that are not. |
| `WarmPools.WarmPool.GetDeviationPrefix` | pkg/pool/pool.go:675-711 | The change in prefixes, by the prefix target alone or by the two address targets. |
| `WarmPools.WarmPool.CalculateSecondaryIPDeviation` | pkg/pool/pool.go:726-767 | Refines SecondaryDeviation and stores the defaulted targets. |
| `WarmPools.WarmPool.ReconcilePool` | pkg/pool/pool.go:415-528 | Refines ReconcileStep: re-sync first, then capacity, then create, delete or nothing. |
| `WarmPools.WarmPool.CreateUpTo` | pkg/pool/pool.go:456-480 | Refines CreateStep: the deviation cut down to the remaining room, reserved and asked for. |
| `WarmPools.WarmPool.DeleteFreeGroups` | pkg/pool/pool.go:482-523 | Refines DeleteStep: as many free groups as cover the amount, or all of them. |
| `WarmPools.WarmPool.DropUntilCovered` | pkg/pool/pool.go:498-511 | The loop drops the least number of free groups that covers the amount, if there are enough, and reserves their addresses. |
| `WarmPools.WarmPool.ReplaceConfig` | pkg/pool/pool.go:531-534 | The first locked section of SetToDraining and SetToActive: only the configuration changes. |
| `WarmPools.WarmPool.SetToDraining` | pkg/pool/pool.go:531-537 | The configuration is emptied, then the pool reconciles. |
| `WarmPools.WarmPool.SetToActive` | pkg/pool/pool.go:540-546 | The configuration is replaced, then the pool reconciles. |
| `Handler.WarmResourceHandler.HandleCreate` | pkg/handler/warm.go:59-131 | Without a pool for the node the event fails; an annotated pod is skipped; otherwise assign, annotate, roll back on failure, reconcile, with the outcome of each refusal; exactly the job of the reconcile is submitted. |
| `Handler.WarmResourceHandler.HandleDelete` | pkg/handler/warm.go:143-183 | Without a pool for the node the event is dropped; otherwise the annotated or recorded address is freed, the pool reconciled and its job submitted, or nothing happens. |
| `Handler.WarmResourceHandler.ReconcilePool` | pkg/handler/warm.go:133-140 | Exactly when asked, the pool reconciles and its job is submitted. |
| `Handler.AnnotatedIffUsed` | pkg/handler/warm.go:72-131 | A create event annotates if and only if the pool has an address and the API server accepts; then the pod holds the annotated address. If the annotation fails, the address taken is at the end of the queue; otherwise used and the queue are unchanged. |
| `HandlerAnswers.CreateAnswers` | pkg/handler/warm.go:72-131 | The answer to a create event in each case of the pool's counts: done, failed, or a retry in 20 s, 600 ms or 2 min. |
| `HandlerAnswers.Answered` | pkg/pool/pool.go:240-285 | The pool's answer to a request in each case, with its error and whether it asks for a reconcile. |
| `HandlerAnswers.CreateSubmits` | pkg/handler/warm.go:72-128 | A create event submits one job, a reconcile of the pool it found but for the address it took, exactly when the requester may ask and there is a group or one is to be had; otherwise none. |
| `HandlerAnswers.CreateEventRefillsIff` | pkg/handler/warm.go:72-88 | A create event on a sound, active, empty pool that may grow submits a create if and only if the targets call for one; a prefix pool whose targets fit always does. |
| `HandlerAnswers.DeleteSubmits` | pkg/handler/warm.go:150-178 | A delete event takes effect exactly when the pod holds an address and the event carries it or none; then the address is queued with the current time and one reconcile is submitted, otherwise nothing happens. |
| `Handler.CreateLosesNothing` | pkg/handler/warm.go:72-128 | Whatever a create event does, no address appears, and one leaves the pool only with a delete job that the event submits. |
| `Handler.DeleteLosesNothing` | pkg/handler/warm.go:143-178 | The same for a delete event. |
| `Handler.DoneIsAnnotatedIff` | pkg/handler/warm.go:89-103 | A create event that ends without error or retry leaves the pod annotated, except exactly when the pod holds an address, is fetched and carries no annotation. |
| `Handler.DoneWithoutAnnotation` | pkg/handler/warm.go:89-103 | Any such pool and pod is an input on which the event ends well and the pod stays without annotation. |
| `Handler.PodEventsLetItSleep` | pkg/handler/warm.go:72-113 | Any number of create and delete events leaves a prefix pool without addresses and without an available prefix as it is and submits no job. |
| `HandlerRuns.NodeRunIsSound` | pkg/handler/warm.go:59-183 | In every run of interleaved handler calls and pool steps the pool is sound, and every pod that holds an address is annotated with it or a create event is seeing to it. |
| `HandlerRuns.NoSharedAnnotation` | pkg/handler/warm.go:115-121 | In every run no two pods that hold addresses are annotated with the same one. |
| `HandlerRuns.AlreadyAssignedIsAnnotated` | pkg/handler/warm.go:89-103 | In every run a create event refused because the pod holds an address finds the pod annotated with it, and whenever it fetches the pod later it finds an annotation: the branch with the shadowed error is not taken. |
| `HandlerRuns.DoneIsAnnotated` | pkg/handler/warm.go:59-131 | In every run, whatever happens between its calls, a create event that ends without error or retry leaves its pod annotated from then on. |
| `HandlerRuns.AnnotationsStay` | pkg/handler/warm.go:115-121 | No step takes an annotation off a pod. |
| `HandlerRuns.UninterruptedDoneIsAnnotated` | pkg/handler/warm.go:59-131 | A call of HandleCreate at any point of a run that ends without error or retry leaves its pod annotated. |
| `StaleNotes.SparedPodsShareNothing` | pkg/handler/warm.go:115-121 | In every run two pods that are annotated only while they hold their addresses, are not deleted and see no annotation written by a call that reports a failure are never annotated alike, whatever happens to other pods. |
| `StaleNotes.AnnotationIsSafeIff` | pkg/handler/warm.go:115-121 | After a call of AnnotatePod the pod can never come to share its annotation with such a pod if and only if the call did not report a failure after writing. |
| `StaleNotes.SharedAnnotationRun` | pkg/handler/warm.go:115-121 | From every start of a node with a warm address there is a run without deletes that ends with two pods annotated alike. |
| `HandlerRuns.EveryAssignmentEndsOnce` | pkg/handler/warm.go:165-176 | Over any steps, effective deletes and roll-backs of a pod plus what it holds equal its assignments plus what it held at first, however often deletes are repeated. |
| `HandlerRuns.DeletesMatchCreates` | pkg/handler/warm.go:165-176 | If no delete takes an address away during a create of the same pod, effective deletes plus the present holding equal annotated creates plus the first holding. |
| `HandlerRuns.CreateIsSteps` | pkg/handler/warm.go:59-131 | A call of HandleCreate is a sequence of steps of such a run, ending in the state the call is proved to reach. |
| `HandlerRuns.DeleteIsSteps` | pkg/handler/warm.go:143-183 | So is a call of HandleDelete. |
| `Handler.ForeignDeleteIsIgnored` | pkg/handler/warm.go:165-176 | A delete for a pod that holds nothing, or naming another address than it holds, changes nothing and submits nothing. |
| `Handler.DeleteIsIdempotent` | pkg/handler/warm.go:165-176 | A repeated delete of one pod changes nothing. |
| `Handler.DeleteUndoesCreate` | pkg/handler/warm.go:143-183 | Deleting with the annotation a create wrote restores used and puts exactly that address at the end of the queue. |
| `PrefixProvider.InitPool` | pkg/provider/prefix/provider.go:113-177 | Fails exactly on an unreadable prefix; otherwise the pool has the given configuration, node, mode and capacity with nothing pending, and for well-formed prefixes that fit the node it holds them whole, can start a run, and exactly the running pods with an address of theirs (the first, of several) keep it. |
| `PrefixProvider.InitResource` | pkg/provider/prefix/provider.go:158-188 | The pool drains when prefix delegation is disabled; at start-up it submits at most one job, for its node: no create when it drains, and a create of at least one prefix when nothing is attached, there is a slot and the loaded configuration is active and fits. |
| `PrefixProvider.RecordPrefixes` | pkg/provider/prefix/provider.go:113-123 | All addresses of all prefixes, each under its prefix, or a failure exactly when one cannot be expanded. |
| `PrefixProvider.TakeRunning` | pkg/provider/prefix/provider.go:125-147 | Recorded addresses are divided between used and left; a pod is in used if and only if it is the first to claim a recorded address. |
| `PrefixProvider.WarmLeft` | pkg/provider/prefix/provider.go:149-153 | The addresses left are warm under their own prefixes, each once. |
| `ConfigLoader.ParseWinIPTargetConfigs` | pkg/config/loader.go:79-164 | For every ConfigMap: the configured targets, or the defaults of the mode when all are zero. |
| `ConfigLoader.LoadResourceConfigFromConfigMap` | pkg/config/loader.go:54-74 | The fallback is never taken; the parsed targets go to the pool of the mode and the other pool keeps its defaults, both active with no tolerated deviation; a PD pool has an effective warm target of an address or a prefix. |
| `ConfigLoader.TargetsNeverAllZero` | pkg/config/loader.go:145-163 | For no ConfigMap content are all three targets zero. |
| `ConfigLoader.PrefixDelegationIff` | pkg/config/loader.go:91-95 | Prefix delegation is enabled by the texts that Go reads as true, and by no other. |
| `ConfigLoader.WarmTargetIsConfigured` | pkg/config/loader.go:97-124 | A number set as warm target, under its key or failing that the Windows key, is the one used; zero becomes one in secondary mode. |
| `ConfigLoader.MinimumIsConfigured` | pkg/config/loader.go:101-135 | A nonzero number set as minimum is the one used. |
| `ConfigLoader.WarmPrefixTargetIsConfigured` | pkg/config/loader.go:105-143 | A nonzero number set as warm-prefix target is used in prefix mode and ignored in secondary mode. |
| `ConfigLoader.DefaultsWithoutTargets` | pkg/config/loader.go:145-153 | Without any target the mode's defaults are used: 1, 3 and 0 with prefix delegation, 3 and 3 without. |
| `ConfigLoader.MissingIsZeroBesideAnother` | pkg/config/loader.go:121-135 | Beside a configured target a missing one is zero. |
| `ConfigLoader.SecondaryWarmTargetIsZeroIff` | pkg/config/loader.go:110-124 | In secondary mode the warm target is zero if and only if it is missing or reads as nothing, and a nonzero minimum is set; a text reads as nothing when it is no number and its digits do not overflow. |
| `ConfigLoader.SecondaryMinimumIsZeroIff` | pkg/config/loader.go:126-135 | In secondary mode the minimum is zero if and only if it is missing, reads as nothing or is zero, and the warm target is set and readable. |
| `ConfigLoader.MinimumOnlyHasNoWarmTarget` | pkg/config/loader.go:121-135 | A ConfigMap with only a minimum of two gives a secondary pool without a warm target. |
| `ConfigLoader.MinimumOnlyStarves` | pkg/config/loader.go:121-135 | Under that ConfigMap a node with two pods and room for a third turns the third away, and its reconcile creates nothing. |
| `ConfigLoader.UnreadableCountsIff` | pkg/config/loader.go:111-143 | A setting that is reported as unreadable still counts if and only if it is a number beyond 64 bits, or a text whose digits exceed 2^64-1 before its first other character. |
| `ConfigLoader.OneBeyondCountsAsLargest` | pkg/config/loader.go:111-143 | The text of 2^63 is unreadable and counts as 2^63-1. |
| `ConfigLoader.StrayCharacterCountsAsLargest` | pkg/config/loader.go:111-143 | The text 18446744073709551616x is unreadable and counts as 2^63-1. |
| `ConfigLoader.LargestWarmPrefixTargetStarves` | pkg/config/loader.go:137-143 | With any warm-prefix target of at least 2^63-1 the first reconcile of a pool as it is constructed creates nothing, whatever the capacity, and the pool turns every pod away with ErrInsufficientCidrBlocks and no reconcile. |
| `ConfigLoader.SecondaryStarvesIff` | pkg/config/loader.go:111-124 | Once its minimum is in use, an empty secondary pool fails to ask for addresses if and only if its parsed warm target is zero. |
| `Prefixes.DeconstructIPsFromPrefix` | pkg/utils/helper.go:171-207 | Refines Deconstruct on every string, malformed ones included. |
| `Prefixes.HostAddresses` | pkg/utils/helper.go:197-206 | The counting loop, or the error of an unreadable last octet. |
| `Prefixes.DottedExpands` | pkg/utils/helper.go:180-206 | Any text of four parts, a slash and a rest expands exactly when the last part and the rest are readable and the rest is at most 32: to as many texts as the length leaves, counting up with 64-bit wrap-around. |
| `Prefixes.OnlyDottedExpands` | pkg/utils/helper.go:175-184 | A text of any other form expands to nothing. |
| `Prefixes.CidrParses` | pkg/utils/helper.go:175-188 | A printed prefix is read back as its four octets and its length. |
| `Prefixes.CidrInjective` | pkg/utils/helper.go:203-204 | Different prefixes have different texts. |
| `Prefixes.ExpandCanonical` | pkg/utils/helper.go:195-206 | A canonical prefix of length m expands to exactly 2^(32-m) texts counting up from its last octet. |
| `Prefixes.ExpandStaysInOctet` | pkg/utils/helper.go:197-205 | All of them are IPv4 addresses if and only if the block ends within the last octet. |
| `Prefixes.AlignedExpands` | pkg/utils/helper.go:171-207 | Every aligned prefix of length 24 to 32 expands to exactly its block: 2^(32-m) distinct IPv4 addresses counting up from the last octet. |
| `Prefixes.PrefixesDisjoint` | pkg/utils/helper.go:171-207 | Two different aligned prefixes of one length share no address. |
| `Prefixes.Prefix28Expands` | pkg/utils/helper.go:171-207 | An aligned /28 expands to sixteen distinct IPv4 addresses. |
| `Prefixes.Prefix28sDisjoint` | pkg/utils/helper.go:171-207 | An address belongs to at most one aligned /28. |
| `GoStrings.AtoiItoa` | pkg/utils/helper.go:199-203 | Every 64-bit number is read back from its printed form; any other number reads as the nearest bound, with an error. |
| `GoMath.IntPower` | pkg/utils/math.go:60-69 | The power in 64-bit arithmetic for a non-negative exponent, the base itself for a negative one. |
| `GoMath.CeilDivisionIsCeiling` | pkg/utils/math.go:55-57 | For 64-bit operands and y > 0 the formula is the ceiling if and only if x + y - 1 does not exceed 2^63-1, and x > -y or x - 1 is a multiple of y. |
| `GoMath.CeilDivisionAtMax` | pkg/utils/math.go:55-57 | At 2^63-1 and sixteen the formula is negative. |
| `PodCache.FilterVPC` | pkg/k8s/pod/converter.go:118-126 | Exactly the entries with the VPC prefix are kept. |
| `PodCache.GetContainersWithVPCLimits` | pkg/k8s/pod/converter.go:130-150 | The containers with a VPC request, in order, reduced to those requests. |
| `PodCache.StripDownPod` | pkg/k8s/pod/converter.go:96-114 | The slimmed pod, field by field, with the pod's own UID, node, phase, name and namespace. |
| `PodCache.StripKeepsIdentity` | pkg/k8s/pod/converter.go:96-126 | Name, namespace, UID, deletion timestamp, service account, node and phase are the pod's, and exactly its annotations under vpc.amazonaws.com/ are kept, with their values. |
| `PodCache.StrippedContainers` | pkg/k8s/pod/converter.go:130-150 | A cached container holds nothing but requests of VPC resources, and at least one. |
| `PodCache.CacheKeepsEvents` | controllers/core/pod_controller.go:89-154 | The handlers of VPC resources get the same UID, node, annotation and completion from the cached pod as from the full one. |
| `PodCache.GetAggregateResources` | controllers/core/pod_controller.go:176-188 | One entry for each resource with a convertible request, the 64-bit sum of its requests. |
| `PodCache.AggregateIs` | controllers/core/pod_controller.go:176-188 | An entry for each resource some container requests in a convertible quantity, and no other; the sum grows container by container. |
| `PodCache.PodHasENIRequest` | pkg/utils/helper.go:243-253 | True if and only if there is a pod and some container of it requests a branch interface. |
| `PodCache.StripAgrees` | pkg/k8s/pod/converter.go:130-150 | For every VPC resource, stripping keeps the requested total and whether anything requests it. |
| `PodCache.CacheAggregatesAgree` | controllers/core/pod_controller.go:176-188 | The aggregate of the cached pod is that of the full pod restricted to VPC resources. |
| `PodCache.CacheENIAgrees` | pkg/utils/helper.go:243-253 | The test for a branch interface has the same answer on the cached pod. |
| `PodCache.StripIsIdempotent` | controllers/custom/builder.go:126-133 | Stripping a listed pod again when it is processed changes nothing. |

## Left out

- EC2 and Kubernetes calls, events, metrics, logging, health checks and the introspection endpoints: plumbing. Whether
  an annotation or a fetch succeeds, and what a job reports, are inputs.
- `pkg/worker/worker.go` and the client-go queues: delivery of a job is a step of a run, in any order.
- The ENI manager and the secondary-IP provider: the assumptions above stand in for them. Of the prefix provider only
  the construction of the pool is modelled.
- WarmPools.WarmPool.SetToDraining: the object's method runs its two locked sections back to back; what may happen between them is covered by Progress.DrainingSurvivesInterleaving.
- WarmPools.WarmPool.SetToActive: likewise back to back; in runs the two sections are separate steps.
- WarmPools.WarmPool.UpdatePool: the object stays well formed only when no reported group has an empty name; the new state itself is stated for every job.
- WarmPools.WarmPool.LocalResources: the order is not stated, because Go's map order decides it.
- Aliasing: the configuration is a value here, while the source keeps a pointer that the provider shares; the in-place
  defaulting is stated, its visibility through other pointers is not. The same holds for the queue slice handed out by
  Introspect.
- 64-bit overflow of sums of the pool's own counters and lengths, in states that no run reaches: in runs they are
  bounded by the capacity. Wrap-around is modelled wherever targets, printed numbers or pod requests take part.
- WarmPools.FindFreeGroup: for a group size of zero, which the pool never passes, Go tells a nil list from an empty one and the model does not.
- CoolDowns.NoEarlyReuse: an address that a re-sync drops and a later create reports again may be assigned early, because the source forgets it.
- The reserved size of a warm-pool configuration, which nothing reads.
- Worker counts and supported operating systems of the resource configurations, branch network interfaces, the node
  manager, custom resources, webhooks and the instance limits table: they would only add easy members.
