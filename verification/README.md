# Static node pool provisioner: a verified model

The provisioner keeps the GKE node pools of a cluster in line with a config map.
Entries of the config map name ranges of reservation sub-blocks; every index of
every range is to be held by one node pool. A reconcile round expands the
configuration into desired pools, compares them with the listed pools, holds back
what slices lock, deletes, and then creates, with bounded concurrency. Calls of
the node pool service fail one by one, and the cluster changes between any two
calls.

The project follows the program from strings to runs:

- `Text`, `SubBlocks`, `Naming`, `Networks`: the string layer. Range parsing, pool
  names, sub-block paths, the network list.
- `Config`, `Expansion`, `Construction`, `Aliasing`: configuration blocks and label
  maps as shared mutable objects, the nested loops that build the desired pools on
  the heap, their specification on values, and the exact effect of the label map
  that all pools derived from the default block share.
- `NodePools`, `Diff`, `Partitions`, `Planning`: building and hashing a pool,
  listing, the four lists of differences, pools in use, and the lock filters. Each
  loop is a method proved against a function or a set-level specification.
- `Rounds`: the reconcile loop as a transition system over the service's pools.
  Its steps are the start of a round, single service calls in any order with any
  outcome, the end of a stage, and acts of the environment between any two of them.
- `Safety`, `Outcomes`, `Convergence`, `Undisturbed`, `Ranking`: what holds in every state
  of every run, what a returned round has done, where a round that nobody disturbs
  leads, that a repetition does nothing, and a ranking function.
- `Workers`, `InProgress`, `Refinement`, `RepeatedNames`, `Duplicates`: the goroutines, semaphore, wait
  group and error channel of the two worker pools, action by action, the in-progress
  set, that every interleaving is a stage of the transition system, and exactly when
  two of its deletions overlap.
- `Controller`: the reconciler as a class. Its methods run against an arbitrary
  script of service outcomes and environment acts; a ghost trace shows that every
  execution is a run of the transition system.
- `Limits`, `FalseReports`, `Guard`: exactly which configurations, pools and reports of
  the service meet the hypotheses of the safety results, and exactly how far the
  in-use guard reaches.

The hash is a parameter of which nothing is assumed. Where a result needs it not to
collide, the hypothesis is only about the pools and the configuration at hand
(`Safety.NoCollision`).

## Where the code and its documentation disagree

- `README.md:96-99` promises that no pool in use is deleted. The list of pools in
  ERROR is not filtered. `Planning.InUseGuardExactly` states how far the guard
  reaches, `Planning.InUseErrorPoolIsTornDown` gives the deletion of a pool in use.
- The guard also sees only nodes with the manager's label and the static label, and
  both can be overwritten by `nodeLabels` (`internal/cloud/gke.go:275-282`).
  `Guard.RoundDeletesExactly` and `Guard.LeasedPoolIsDeletedIffLabelsOverwritten` say
  exactly when a pool that a slice holds is deleted, and
  `Guard.OverwrittenLabelUnlocksLeasedPool` gives the smallest cluster.
- `README.md:75` promises overrides per sub-block range. With a default block that has
  labels, every override reaches every pool: `Aliasing.LabelsOfEveryPool`. The
  promise is kept exactly as `Aliasing.LabelsAsAskedExactly` says.
- `internal/cloud/gke.go:400` says that all fields of the config map are hashed.
  `Diff.ChangeDetectionIsExact` and `NodePools.DefaultsAndAutoRepairAreNotHashed`
  state what is.
- `internal/cloud/gke.go:77-82` means to deduplicate deletions, by a load followed by
  a store. `Duplicates.RepeatedNameIsCalledTwice` states exactly which deletions that
  lets through, `Duplicates.RoundOverlapsExactly` exactly which rounds start one.
- `internal/cloud/gke.go:146-148` leaves pools without a hash alone. Exactly when that
  is harmless is stated by `Limits.ExclusiveAfterRoundIffNoSquatters`.
- `EnsureStaticNodePools` does not clamp its concurrency (`internal/cloud/gke.go:174`)
  while the deletion does: `Workers.OnlyDeletionReturnsForAnyConcurrency`.
- An operation that is DONE counts as successful even if it ended in an error
  (`internal/cloud/gke.go:499-501`), so a deletion may be reported as done while the
  pool stays: `FalseReports.LyingDeletionBreaksExclusivity`. Exactly when that is
  harmless is stated by `FalseReports.FalseReportsExactly` and, before the round, by
  `FalseReports.AllFalseReportsAreHarmlessIffNothingMoves`.

## Model

| member | source | states |
|---|---|---|
| Safety.CapacityIsExclusiveWithoutSquatters | internal/controller/static_nodepool_controller.go:117-220 | In every state of every run no two static pools hold one sub-block, for any changes of configuration, locks and status, any failing calls, any order of calls and static pools of any content, if every round's creations name a sub-block once, no kept pool squats on what the round is to create, and no deletion reported as done leaves a pool in the way of a planned creation |
| Safety.CapacityIsExclusiveWhereNothingMoves | internal/controller/static_nodepool_controller.go:117-220 | The same without any word of the service on deletions, where no round moves a sub-block from one name to another |
| Safety.CapacityIsExclusive | internal/controller/static_nodepool_controller.go:117-220 | The same, without asking for squatters to be absent, from any start where the static pools carry the hashes of their own contents, if these do not collide; and the static pools go on carrying them |
| Safety.BlockersAreDeleted | internal/controller/static_nodepool_controller.go:146-187 | Whatever static pool holds the sub-block of a planned creation under another name is itself planned for deletion, unless it is a kept squatter; locked pools never stand in the way of a creation |
| Safety.SelfHashedPoolsDoNotSquat | internal/cloud/gke.go:146-152 | Where static pools carry their own hashes and none collides, a configuration that names each sub-block once finds no kept squatter |
| Safety.RunsKeepHashes | internal/cloud/gke.go:389-394 | In every run, under any configurations, static pools that carry the hashes of their own contents go on doing so |
| Safety.KeptPoolHoldsItsSubblock | internal/cloud/gke.go:146-152 | A static pool whose hash label equals the desired hash holds the sub-block asked for, although the comparison never looks at the sub-block |
| Safety.RunsStaySafe | internal/controller/static_nodepool_controller.go:189-220 | The inductive invariant: pools are exclusive, and only pools with an outstanding deletion hold the sub-block of a planned creation |
| Rounds.CreationsFollowAllDeletions | internal/controller/static_nodepool_controller.go:189-220 | In every run a creation is called only after every planned deletion of its round has returned without error |
| Rounds.DeletionsGoListByList | internal/controller/static_nodepool_controller.go:189-211 | In every run no pool in ERROR is deleted before all strays, and no changed pool before all strays and all pools in ERROR, have been deleted without an error |
| Rounds.InUsePoolsSurvive | internal/controller/static_nodepool_controller.go:126-187 | In every run a call removes a pool in use only if it is desired and was listed in ERROR, and never adds anew a pool in use that was listed healthy |
| Rounds.RunsKeepRoundsSound | internal/controller/static_nodepool_controller.go:117-220 | In every run the calls of a round are calls its plan names, and the plan is the one for its listing |
| Outcomes.EndsWithoutErrorIffNoCallFailed | internal/controller/static_nodepool_controller.go:189-222 | A round ends without an error exactly when no call failed, and then every planned deletion and creation has been called and succeeded |
| Undisturbed.RoundOutcome | internal/controller/static_nodepool_controller.go:189-220 | All orders of the calls of an undisturbed round that ends without an error lead to the same pools, but for statuses other than ERROR: the listed ones without the deletions, with the creations |
| Undisturbed.FalseReportsOutcome | internal/controller/static_nodepool_controller.go:189-220 | The same, but for statuses, when any set of deletions is reported as done and does not happen: those pools stay, and creations of their names do nothing |
| Undisturbed.SecondRoundDoesNothing | internal/controller/static_nodepool_controller.go:117-220 | Idempotence under locks: after every undisturbed round that has ended without an error, a round started with the same configuration and pools in use has no call to make, also when updates and deletions were held back or a deleted pool's capacity was held |
| Convergence.PlanReadsPools | internal/controller/static_nodepool_controller.go:126-187 | What each list of the plan holds, in terms of the pools: undesired static ones not in use, entries in ERROR, changed ones not in use, and creations whose capacity no locked pool holds |
| Convergence.DesiredAfterRound | internal/controller/static_nodepool_controller.go:170-187 | After a round a desired entry is kept, or absent because a locked pool holds its capacity, or changed and in use |
| Ranking.RankZeroIffNoDifference | internal/cloud/gke.go:106-166 | The rank, two for each broken or changed entry, one for each absent entry and each stray static pool, is zero exactly when the four lists of differences are empty |
| Ranking.EveryCallMovesRank | internal/controller/static_nodepool_controller.go:189-220 | In a round in which any calls may fail, with any effect, every successful deletion and creation lowers the rank by exactly one, a failed deletion never raises it, and a failed creation raises it by one at most |
| Ranking.RankIsPaidBySuccesses | internal/controller/static_nodepool_controller.go:189-220 | However many calls of a round fail, the rank at any point is at most the rank at the start, less the successful calls, plus the failed creations |
| Ranking.RoundsPayForThemselves | internal/controller/static_nodepool_controller.go:117-220 | The same over any number of consecutive undisturbed rounds of one configuration, with any failures in any of them |
| Ranking.CallsPlusRankIsConserved | internal/controller/static_nodepool_controller.go:189-220 | As long as no call of an undisturbed round has failed, calls made and rank left add up to the rank at its start |
| Ranking.OneRoundConverges | internal/controller/static_nodepool_controller.go:117-220 | From any pools, one undisturbed round that ends without an error and without locks reaches rank zero with exactly as many calls as the rank was |
| Controller.StaticNodepoolReconciler.Reconcile | internal/controller/static_nodepool_controller.go:62-223 | The whole method: no config map, one that cannot be parsed, or no configuration in it leave everything untouched without an error; it ends in an error without a round exactly when fetching, expanding, listing or planning fails, never returns exactly when the expansion meets a range up to the largest int, and then leaves everything untouched; otherwise the plan for the expansion is executed as a run of the transition system |
| Controller.StaticNodepoolReconciler.ReconcileDesired | internal/controller/static_nodepool_controller.go:111-222 | From the desired pools on: the listing is faithful; no step is taken and an error returned exactly when pools cannot be listed, an entry cannot be built, or some pool of the cluster is to be removed or changed and slices or nodes cannot be listed; otherwise the round is a run that starts from the plan and ends in an error exactly when an error is returned |
| Controller.StaticNodepoolReconciler.Execute | internal/controller/static_nodepool_controller.go:189-222 | The deletions list by list, then the creations, each only if the stage before had no error |
| Controller.StaticNodepoolReconciler.DeleteStaticNodePools | internal/cloud/gke.go:441-480 | For any order, outcomes and interference the stage is a run of the transition system that calls every name once, and the returned names are empty exactly when none failed |
| Controller.StaticNodepoolReconciler.EnsureStaticNodePools | internal/cloud/gke.go:169-242 | The same for creations; the round ends in an error exactly when an error is returned |
| Controller.StaticNodepoolReconciler.DeleteNodePool | internal/cloud/gke.go:76-104 | A name in progress is refused without a call; any other is called and the in-progress set is as before |
| Controller.StaticNodepoolReconciler.EnsureNodePool | internal/cloud/gke.go:180-225 | Builds the pool again, then creates it unless the lookup fails or a pool of the name exists, which is no error |
| Controller.ReconcilerIsSafe | internal/controller/static_nodepool_controller.go:62-223 | After any sequence of the reconciler's methods and environment acts, capacity is exclusive, given clean starts and deletions whose reports are true where it matters |
| Controller.HonestDeletionsClear | internal/cloud/gke_service.go:64-90 | A service whose reports of deletions are all true meets that condition, whatever else it does |
| Controller.ReconcilerIsSafeWithoutSquatters | internal/controller/static_nodepool_controller.go:62-223 | The same for static pools of any content, as long as no round finds a kept squatter |
| Controller.LastRoundIsAccounted | internal/controller/static_nodepool_controller.go:189-222 | Between reconciles, the last round ended in an error exactly when a call failed, and otherwise made every planned call |
| Controller.PlanIsForSeenInUse | internal/controller/static_nodepool_controller.go:126-168 | Not listing slices and nodes when nothing is to be deleted or changed gives the plan that listing them would give |
| Controller.HasAnyConfig | internal/controller/static_nodepool_controller.go:83-98 | The nested loops with their breaks find a configuration exactly when there is a default or some entry has one |
| Diff.DiffStaticNodePools | internal/cloud/gke.go:106-166 | The loops over maps and appended lists compute the four lists of the specification `DiffOf`, or the first entry that cannot be built |
| Diff.DiffIsAnExactPartition | internal/cloud/gke.go:106-166 | With distinct names: which names each deletion list holds, that the lists are disjoint, and that the creations are, in the order of the configuration, precisely the absent entries and those on the update and error lists |
| Diff.DiffSucceedsIffAllBuild | internal/cloud/gke.go:123-127 | A comparison succeeds exactly when every desired pool can be built |
| Diff.DiffFailsAtFirstUnbuildable | internal/cloud/gke.go:123-127 | The first entry that cannot be built ends the comparison with its own error |
| Diff.ChangeDetectionIsExact | internal/cloud/gke.go:146-152 | A healthy pool built from one request is to be recreated for another of its name exactly when their settings, with the defaults of those left out, differ in policy name (without one: topology), node count, max pods, machine type, sub-block, shielding or labels |
| Diff.VerdictsByName | internal/cloud/gke.go:133-152 | What an entry needs, decided by map lookup, in terms of the one listed pool of its name |
| Planning.PlanRound | internal/controller/static_nodepool_controller.go:117-187 | Comparison, listing of slices and nodes only when needed, and filtering compute the specification `RoundPlan`, whose outcomes `PlanningEndsExactly` and `Guard.RoundDeletesExactly` characterise |
| Planning.PlanningEndsExactly | internal/controller/static_nodepool_controller.go:117-144 | There is a plan exactly when every entry can be built and, if a static pool is no longer named or a healthy one has changed, slices and nodes are listed; each of the three errors comes exactly in its own case |
| Planning.FilterPlan | internal/controller/static_nodepool_controller.go:146-187 | The closure and loop with their two skip sets compute the lock filter |
| Planning.PlanMembers | internal/controller/static_nodepool_controller.go:146-187 | Membership in each list of the plan: names not in use, all names in ERROR, and creations that are neither a locked update nor aim at capacity a locked pool holds |
| Planning.InUseGuardExactly | internal/controller/static_nodepool_controller.go:147-168 | A pool in use is on a deletion list exactly when it is desired and listed in ERROR; listed healthy, it is not created anew either |
| Planning.InUseErrorPoolIsTornDown | internal/controller/static_nodepool_controller.go:197-203 | A desired pool listed in ERROR is on the deletion list whatever is in use, and is created anew exactly when no locked pool holds its sub-block |
| Planning.LocksAreMonotone | internal/controller/static_nodepool_controller.go:147-187 | More pools in use never lead to more deletions or creations |
| Planning.SlicesOnlyShrinkThePlan | internal/controller/static_nodepool_controller.go:126-187 | For the same configuration, pools and nodes, adding slices only shrinks the deletions and the creations of a round |
| Partitions.GetInUseNodepools | internal/controller/static_nodepool_controller.go:286-312 | Whatever the order of the labels and the early break, a pool is in use exactly when one of its nodes has a partition label whose value a slice claims |
| Partitions.PartitionLabelsExactly | internal/utils/metadata.go:6-10 | The slicing test accepts exactly the prefix, a non-empty middle and the suffix |
| Partitions.MoreSlicesLockMore | internal/controller/static_nodepool_controller.go:286-312 | More slices never free a pool |
| NodePools.StaticNodePoolForSubBlock | internal/cloud/gke.go:274-395 | The procedure, with user labels copied over reserved ones in any order, gives a pool that has every field as asked, in the terms of the settings and their own defaults, and carries its own hash, or the error met first |
| NodePools.BuiltPoolExactly | internal/cloud/gke.go:354-394 | Fields as asked and the own hash leave no choice: max pods the configuration's if not zero, each flag as set or by its own default, placement by a policy name or compact, node count, machine type, location, tags, disks, networks, reservation and labels as given |
| NodePools.NodePoolHash | internal/cloud/gke.go:397-438 | The copy of the labels, in any order and without the hash label, gives the hash of the projected record |
| NodePools.ListNodePools | internal/cloud/gke.go:45-74 | One reference for each pool of the answer in its order, with nil configurations, labels and affinities as empty |
| NodePools.BuiltPoolListsAsAsked | internal/cloud/gke.go:389-394 | Storing the hash label does not change the hash, also when user labels name the hash key; a listing shows the name, the sub-block asked for and the pool's own hash |
| NodePools.HashedDataIsTheResolvedSpec | internal/cloud/gke.go:397-438 | The hashed data of two built pools of one name agree exactly when the raw settings, with the defaults of those left out, do, field by field and label by label |
| NodePools.ExplicitDifferencesAreHashed | internal/cloud/gke.go:397-438 | Two requests that both spell out max pods, a policy, or a shielding flag, and differ in it, or that differ in machine type, node count or sub-block, never have equal hashed data |
| NodePools.DefaultsAndAutoRepairAreNotHashed | internal/cloud/gke.go:335-352 | Making a default explicit or toggling auto-repair leaves the hashed data as it is |
| NodePools.PlacementCountsByPolicyOrTopology | internal/cloud/gke.go:314-322 | Two configurations are placed alike exactly when they refer to one policy name, explicit or derived, and, if to none, to one topology |
| NodePools.PoolLabels | internal/cloud/gke.go:275-282 | User labels end up on top of the reserved ones, whatever the order in which they are copied |
| NodePools.BuildableExactly | internal/cloud/gke.go:303-333 | A pool can be built exactly when the network list parses and the name has at most 40 characters; a bad list is reported first |
| Construction.ConstructDesiredNodePools | internal/controller/static_nodepool_controller.go:225-262 | The nested loops over shared blocks and label maps yield entries which, read once all are built, are the expansion on values of the configuration as it was on entry, or the first error |
| Construction.AppendRange | internal/controller/static_nodepool_controller.go:247-257 | The index loop appends one entry per index of the range, in order, all with one shared block |
| Config.MergeConfig | internal/config/parser.go:37-88 | The merge is a fresh block in which each of the ten fields besides the labels is the entry's if set there, whatever the default holds, else the default's; its labels are the default's own map, written to in place, or a fresh one if the default has none |
| Config.MergeLabels | internal/config/parser.go:64-71 | Labels are written over in place, key by key in any order, also when both blocks refer to one map |
| Aliasing.LabelsOfEveryPool | internal/config/parser.go:54-88 | With a default that has a label map every pool carries the default's labels under the overrides of all entries in order; otherwise each has its own overrides only; every other field of the pool is its entry's if set there, else the default's, either way |
| Aliasing.LastOverrideWins | internal/config/parser.go:64-71 | The shared map holds exactly the keys some entry overrides, each with the value of the last entry that does |
| Aliasing.LabelsAsAskedExactly | README.md:75 | All desired pools of a configuration have the labels their own entries ask for exactly when the default has no label map or all entries ask for the same labels |
| Aliasing.PromiseKeptIffAllAskAlike | internal/config/parser.go:64-71 | The shared map ends up with what each entry asks for exactly when all entries ask for the same labels |
| Expansion.ExpandsExactly | internal/controller/static_nodepool_controller.go:228-258 | A configuration can be expanded exactly when every entry has a range that parses and stops below the largest int, and a configuration of its own or by default |
| Expansion.FirstErrorIsReturned | internal/controller/static_nodepool_controller.go:228-258 | Otherwise the first entry that cannot be expanded decides: its bad range, its missing configuration, or a loop that does not end |
| Expansion.ExpansionIsComplete | internal/controller/static_nodepool_controller.go:228-258 | The expansion has as many entries as all ranges together have indices |
| Expansion.ExpansionAt | internal/controller/static_nodepool_controller.go:228-258 | Each index of each range is at its place in the order of the entries |
| Expansion.ItemsExactly | internal/controller/static_nodepool_controller.go:247-257 | An index is expanded exactly when an entry's range contains it |
| Expansion.NamesDistinctIffUnambiguous | internal/utils/static_nodepools.go:6-11 | The desired names are distinct exactly when no two entries of one name template have overlapping ranges |
| Naming.NamesExactly | internal/utils/static_nodepools.go:6-11 | A name is the prefix, or without one the block and "-subblock", a dash, and the one numeral of the index with four digits, or more but no leading zero |
| Naming.SomeNames | internal/utils/static_nodepools_test.go:5-36 | The two names that the repository's test expects |
| Naming.PathSegments | internal/controller/static_nodepool_controller.go:249-250 | Cut at its slashes, a path of slash-free parts is "projects", project, "reservations", reservation, "reservationBlocks", block, "reservationSubBlocks", and the block with "-subblock-" and that numeral |
| Text.FormatIndexExactly | internal/utils/static_nodepools.go:8-10 | The %04d rendering of an index is the only string of digits of its value that has at least four characters and, with more, does not start with a zero |
| Naming.NamesClashExactly | internal/utils/static_nodepools.go:6-11 | Two names are equal exactly when the indices are and the prefixes or blocks are, or one prefix spells the other's block and "-subblock" |
| Naming.PathsDetermineSubblock | internal/controller/static_nodepool_controller.go:249-250 | Paths of blocks without a slash are equal exactly when reservation, block and index are |
| SubBlocks.ParsesExactlyRanges | internal/cloud/gke.go:245-272 | The parser accepts exactly an index or two ordered indices around one dash, each digits after an optional plus sign, within int |
| SubBlocks.AcceptedRangesAreOrdered | internal/cloud/gke.go:245-272 | Every accepted range has 0 <= start <= end |
| SubBlocks.ParseUndoesPrinting | internal/cloud/gke.go:245-272 | Parsing the %04d rendering of a range or an index, which `Text.FormatIndexExactly` determines, returns it, for all of int |
| SubBlocks.LoopEndsIffBoundBelowMaximum | internal/controller/static_nodepool_controller.go:247-247 | The index loop, with its wrap-around, ends exactly when the range stops below the largest int |
| Networks.ParseAdditionalNodeNetworks | internal/cloud/gke.go:510-530 | The loop with its early return computes the specification `ParseNetworks`, with the first bad pair as the error |
| Networks.FailsAtFirstBadPiece | internal/cloud/gke.go:513-522 | A list fails exactly when some piece between commas is neither blank nor holds a colon, with the first such piece, trimmed, as the error |
| Networks.PieceExactly | internal/cloud/gke.go:514-527 | A blank piece gives nothing; any other gives the trimmed parts before and after its first colon, although the source trims the whole piece first |
| Networks.BlanksDoNotCount | internal/cloud/gke.go:512-527 | Blanks around a pair and around its sides do not change what it parses to |
| Networks.DocumentedList | internal/cloud/gke.go:512-512 | The list of the source's comment parses to its two pairs |
| Text.TrimSpaceExactly | internal/cloud/gke.go:514-526 | Trimming leaves the one part between blanks that has no blank at its ends |
| Networks.ParsingIsAHomomorphism | internal/cloud/gke.go:510-530 | Joining two lists with a comma concatenates what they parse to, and fails exactly when one of them does |
| Networks.ParseUndoesPrint | internal/cloud/gke.go:510-530 | Parsing the printed form of trimmed pairs without commas and without a colon in the network returns them |
| Workers.RunningWorkersWithinCap | internal/cloud/gke.go:174-182 | In every interleaving the goroutines between taking and returning a token never outnumber the semaphore's capacity, which `ConcurrencyIsAsConfigured` ties to the configuration |
| Workers.ConcurrencyIsAsConfigured | internal/cloud/gke.go:174-182 | For a configured concurrency c, the most goroutines ever between taking and returning a token are the smaller of c and the items for a creation, and of c, but at least one, and the items for a deletion: never more, and as many in some interleaving |
| Workers.WorkersNeverBlock | internal/cloud/gke.go:173-230 | A started goroutine never blocks: no send meets a full or closed error channel, no receive an empty semaphore |
| Workers.InterleavingsAreFinite | internal/cloud/gke.go:172-241 | No interleaving is longer than eleven steps an item and four more |
| Workers.ReturnsIffTokens | internal/cloud/gke.go:174-178 | Every interleaving that cannot go on has returned, exactly when there is a token or nothing to do |
| Workers.ReturnedErrorsAreTheFaults | internal/cloud/gke.go:228-241 | At the return every goroutine is gone and the errors returned are those the goroutines met, as a multiset |
| Workers.OnlyDeletionReturnsForAnyConcurrency | internal/cloud/gke.go:444-453 | With its clamp a deletion returns from every interleaving for every configured concurrency; a creation of at least one pool, which has no clamp, does exactly if the concurrency is positive |
| InProgress.EachItemIsCalledOnce | internal/cloud/gke.go:455-479 | At the return each item has been passed to the service exactly once, or was refused as a duplicate |
| InProgress.MarksAreExact | internal/cloud/gke.go:79-83 | For one deletion with distinct names, the set holds at every moment what it held on entry and the names of the workers past their store |
| InProgress.DeletionRestoresMarks | internal/cloud/gke.go:76-104 | After the return the set is as on entry, and a name was refused exactly if it was marked on entry |
| Duplicates.RepeatedNameIsCalledTwice | internal/cloud/gke.go:79-82 | A deletion has an interleaving with two service calls for one name at once exactly when it has at least two tokens and a name given twice that is not in progress on entry |
| RepeatedNames.DeletionListsRepeatExactly | internal/cloud/gke.go:139-152 | A plan repeats a name on its error list exactly when two entries of that name are in ERROR, on its update list exactly when two are changed and it is not in use, and never on the list of strays |
| Duplicates.RoundOverlapsExactly | internal/cloud/gke.go:441-480 | A round's deletion can call the service twice at once for one name exactly when at least two concurrent deletions are configured and the configuration lists, in this sense, a name twice that is not in progress |
| Refinement.ActionRefinesRound | internal/cloud/gke.go:172-241 | Every action of every goroutine is invisible to the transition system but for acts of the environment, or is the call step of the item it settles, after an act of the environment if there was one |
| Refinement.InterleavingsAreSteps | internal/cloud/gke.go:172-241 | Every interleaving of a worker pool, with the environment acting between any two actions, is a sequence of steps of the transition system from the start of the stage to a state that shows where the workers stand |
| Refinement.ReturnEndsStage | internal/cloud/gke.go:470-479 | A worker pool that has returned shows a stage with nothing pending, which failed exactly if errors are returned |
| Limits.CapacityIsNamedOnceIffUnambiguous | internal/controller/static_nodepool_controller.go:248-250 | A configuration names each sub-block once exactly when entries for overlapping ranges of one block of one reservation share a name template |
| Limits.ExclusiveAfterLiesExactly | internal/controller/static_nodepool_controller.go:189-220 | For any plan that fits its pools and any set of deletions that did not happen, the pools after the round are exclusive exactly when no pool that stands holds what another entry was created for and no two creations are for one sub-block |
| Limits.ExclusiveAfterRoundExactly | internal/cloud/gke.go:146-152 | From exclusive pools of any content and any configuration of distinct names, an undisturbed round ends with exclusive pools exactly when there are no kept squatters and the planned creations name each sub-block once |
| Limits.FreshRoundIsExclusiveIffNamedOnce | internal/cloud/gke.go:117-137 | In an empty cluster, one undisturbed round ends with exclusive pools exactly when the configuration names each sub-block once |
| Limits.ExclusiveAfterRoundIffNoSquatters | internal/cloud/gke.go:146-152 | From exclusive pools of any content and a configuration that names each sub-block once, an undisturbed round ends with exclusive pools exactly when no static pool that its own entry keeps, for want of a hash or by an equal one, holds what another entry is to be created for |
| Limits.HashlessPoolBreaksExclusivity | internal/cloud/gke.go:146-152 | The smallest squatter: a hashless pool kept under a desired name while it holds another entry's sub-block |
| FalseReports.FalseReportsExactly | internal/cloud/gke.go:493-508 | For a round that is otherwise harmless, false reports of deletions keep the pools exclusive exactly when no pool that stays holds what the round created under another name |
| FalseReports.AllFalseReportsAreHarmlessIffNothingMoves | internal/cloud/gke.go:493-508 | Before the round: all possible false reports are harmless exactly when the plan moves no sub-block from a name it deletes to another name it creates |
| FalseReports.RoundWithFalseReportsExactly | internal/cloud/gke.go:493-508 | Every undisturbed round that succeeds with any false reports, in any order of calls, ends with exclusive pools exactly under the first of these conditions |
| FalseReports.LyingDeletionBreaksExclusivity | internal/cloud/gke.go:493-508 | One deletion reported as done that did not happen leads a run to two static pools on one sub-block |
| Guard.StaticUnlessOverwritten | internal/cloud/gke.go:275-282 | A built pool is static exactly when its configuration does not overwrite the static label |
| Guard.ManagedUnlessOverwritten | internal/cloud/gke.go:275-282 | A built pool carries the manager's label exactly when its configuration does not overwrite it |
| Guard.LocksThroughVisibleNodesOnly | internal/controller/static_nodepool_controller.go:133-139 | A slice's hold on a pool counts exactly when it is through a node that carries both the manager's and the static label |
| Guard.RoundDeletesExactly | internal/controller/static_nodepool_controller.go:126-203 | Over all of a round's planning, whatever can be listed: a pool is deleted exactly when it is desired and in ERROR, or is no longer named or has changed, slices and nodes are both listed, and no slice holds it through a node with both labels |
| Guard.LeasedPoolIsDeletedIffLabelsOverwritten | internal/controller/static_nodepool_controller.go:126-211 | A healthy pool that a slice really holds is deleted once its configuration has changed exactly when the configuration it was built from overwrites the manager's or the static label |
| Guard.OverwrittenLabelUnlocksLeasedPool | internal/controller/static_nodepool_controller.go:126-211 | The smallest cluster of this kind, for every changed entry: one pool, one leased node, one slice |
| Limits.CreateListDiffRoundTrip | internal/cloud/gke.go:45-166 | Pools built for a configuration and read back through a listing in any order differ in nothing from it |
| Limits.NoRoundUnlessAllBuild | internal/controller/static_nodepool_controller.go:117-120 | No round starts unless every desired pool can be built |
| Limits.RebuildCannotFail | internal/cloud/gke.go:184-188 | In every run the rebuild of a planned creation succeeds, and a pool that a call adds is the one planned, hash included |

## Left out

- YAML decoding, the Kubernetes client, watches, events, logging, environment variables and start-up: a reconcile starts from parsed reservations, and slices and nodes are inputs that may fail to be listed.
- HTTP, polling and timeouts of the node pool service: a call has any outcome, and leaves the pool absent, present, or present in any status. An operation that takes effect only after its call has returned with an error is not modelled.
- The hash's byte layout (JSON, FNV, the safe encoding) and its failure: the hash is a function of the projected record.
- Two reconciles at once over one provider: the in-progress set may hold foreign names on entry of a deletion, but only one deletion changes it.
- Static pools made or edited by hand: the environment may remove pools, change any status, take the static label away and add pools without it, but it neither adds static pools nor changes their content.
- Unicode blanks and multi-byte characters: a character stands for a byte, and trimming knows the ASCII blanks.
- Wording of errors, status messages of listed pools, and the order in which errors are joined.
- The GCP auth plugin, the mock provider, generated code, custom resource definitions and manifests.
- Controller.StaticNodepoolReconciler.DeleteStaticNodePools: the class makes one call after the other, in any order; the semaphore and the interleaving of goroutines are in `Workers`, joined to the rounds by `Refinement`.
- Controller.StaticNodepoolReconciler.EnsureStaticNodePools: as for deletions, one call after the other in any order; lookup and creation of one pool are one step.
- Safety.CapacityIsExclusive: takes from the service that a deletion reported as done leaves no pool in the way of a planned creation, which the code does not check; `FalseReports` states exactly when that matters.
- Undisturbed.SecondRoundDoesNothing: between the two rounds nothing changes but by the first round itself.
