# Verified model of the swarmcli release engine

A model, in Dafny, of the parts of swarmcli where being right is hard: the engine that deploys chart
releases to a Docker swarm and keeps their history, the values algebra behind `--values` and `--set`, the
counting that decides whether a service has converged, and four compact algorithms (edit distance, column
layout, log demultiplexing, the archive cache). `dafny verify dfyconfig.toml` checks all of it.

## How it is laid out

| files | what they hold |
|---|---|
| `Text`, `Owner` | strings in dictionary order, decimal numbers; ownership stamps |
| `Manifests`, `Releases`, `Pruning`, `Planning` | rendered manifests and partial manifests; release records, the log they form, retention; what a release file asks for |
| `Backends` | the swarm as the engine sees it: a class whose stores the engine changes and whose polls may answer anything |
| `Flights`, `Guarantees` | what "one at a time" means over the polls and deploys of a run, and what runs guarantee |
| `History`, `Rollout`, `Waiting`, `Preflight`, `Deploys`, `Engine`, `Verbs`, `Apply`, `Converge` | the engine itself, as methods on a backend |
| `RecordProtocol` | any number of engines recording at once, as a state machine |
| `Tasks`, `Counting`, `Phase` | task lists reduced to counts per service, and counts to a phase |
| `Values`, `SetGrammar`, `ValuesHeap`, `EffectiveValues` | the values algebra on trees, the `--set` grammar, and the same operations in place on the heap |
| `Levenshtein`, `Suggest`, `Columns`, `LogStream`, `ArchiveCache` | the compact algorithms |

## How the engine is modelled

`Backend` is a class. Its config store, networks and stacks are fields the engine's calls change; whether a
call fails, what a poll of a stack answers, how long anything takes and when a caller cancels are left open,
so every theorem holds for any swarm. A ghost trace lists the polls, with their answers, and the manifests
handed over. Engine methods are proved against predicates on the store before and after and on the part of
the trace they add (`Engine.Ran`, `Apply.Applied`, `Converge.Started`); the lemmas in `Guarantees`, `Verbs` and
`Converge` read the results off those. `Apply.AllKept` says what every apply keeps, to its end or not.

Rollout safety is stated over the trace. For each service, `Flights.FlightAfter` follows the events:
waiting, flying once a manifest that names the service is handed over, and landed once a poll finds its task
spec unchanged, or an update newer than the last one seen before that deploy converged.
`Flights.OneAtATime` says that after no prefix of the events are two held services flying.

A deploy that fails may have reached any of the services it names. A backend that preserves omitted services
keeps those a manifest leaves out; only on such a backend are services held back.

A ghost counter, `mishaps`, counts the calls that failed through no fault of the caller and the cancellations
seen. Where it did not move, a method that fails does so for a reason its contract names: `Engine.Deployable`
for a deploy, `Apply.EntryBlocked` and `Converge.PlanBlocked` for an apply, an unreadable store for a read, a
missing or failed target for a rollback. Answers a caller acts on are stated over the fields they are read
from, beside the code that computes them: `Manifests.Sequential`, `Phase.GivenUp` and `Phase.Finished`,
`Counting.Counted`, `Planning.SaysAll`, `SetGrammar.StandsFor`.

Time is a natural number of nanoseconds with zero for "never", and every wait between two polls moves it on
by at least one. A release record's payload is either an encoded revision or something that does not decode;
writing values down and reading them back is a pair of functions, of which `Releases.Stable` asks only that
storing values once more does not change their canonical encoding. The engine's methods ask of the store
they start from, and keep, `Releases.ValidStore`: a record that decodes is stored under its own name and
labels, which `RecordProtocol` shows for every run of any number of engines; undecodable records and foreign
configs may be there.

## Results that differ from a first guess

- Merging is not associative (`Values.MergeNotAssociative`); `Values.MergeAssociativeIff` says exactly when it is.
- Setting a path can change what another path reads: a list that grows reads null where it read nothing.
  `Values.SetLeavesOtherPaths` gives the reading after a set for every diverging path.
- An override reads back as the text that was written if and only if that text stays a string: it has no
  white space at its ends, is no `{...}` list, none of true, false, null and nil, no 64-bit integer and no
  float (`SetGrammar.SetRoundTrip`).
- An owner stamp reads back if and only if its id is non-empty without `:`, its kind non-empty without `/`,
  and its name non-empty (`Owner.StampReadsBackIff`).
- A record is tried under six numbers at most (`History.Attempted`); the message of the last failure says
  five attempts.
- The barrier between waves holds within one apply only. On a second run releases already recorded plan as
  unchanged and are not waited for (`Converge.BarrierIsForgotten`).
- An external network named twice is made once and then refused, as the second name collides with the first;
  one that is already there may be named as often as a manifest likes (`Preflight.Providable`).

## Model

| member | source | states |
|---|---|---|
| Owner.StampReadsBackIff | charts/owner.go:36-69 | a stamp parses back to its reference exactly when no part is empty, the id has no colon and the kind no slash |
| Owner.StampOfParse | charts/owner.go:43-56 | a stamp that parses is rebuilt from its parts, whose id is always one the engine accepts |
| Owner.StampsAreDistinct | charts/owner.go:28-69 | accepted owners stamp a release differently from every other owner and every other release |
| Manifests.MarkedKeysSorted | charts/rollout.go:215-243 | exactly the keys of the services whose deploy labels say `com.swarmcli.rollout: sequential`, as the first entry under that key of a mapping or as an item of a list, in strictly ascending order |
| Manifests.MarkedIsSequential | charts/rollout.go:226-236 | the check on the labels finds that mark, as an author writes it, in either form, and no other |
| Manifests.WithoutServices | charts/rollout.go:248-268 | fails on a malformed manifest, else leaves out exactly the dropped services and counts what is kept |
| Manifests.WithoutSpecs | charts/rollout.go:245-268 | a partial manifest says of the services it keeps just what the whole one says |
| Manifests.HeldAmongElements | charts/rollout.go:81-91 | held keys are the marked ones that are up, or coming up while a marked one is up, in rollout order |
| Manifests.HeldOnlyWhileOneIsUp | charts/rollout.go:52-62 | some service is held if and only if some marked service is up, so a full stop can recover |
| Backends.Backend.DeployStack | charts/rollout.go:36-44 | an accepted deploy gives every service it names its new definition, a failed one may have; omitted ones are kept by a preserving backend |
| Backends.Backend.CreateConfig | charts/release.go:984-988 | atomic on the name: creates under a free name, or changes nothing |
| Backends.Backend.ListConfigs | charts/release.go:32-42 | every config once, with or without its payload |
| Rollout.HeldForRollout | charts/rollout.go:63-92 | nothing held without a preserving backend or marked services, an error for a malformed manifest, else exactly the held keys of one poll |
| Rollout.HeldOf | charts/rollout.go:72-91 | the two sets and the loops over them compute the held keys |
| Rollout.ServiceStateOf | charts/rollout.go:176-183 | the first state of that name in one poll of the release |
| Rollout.WaitRolled | charts/rollout.go:140-173 | settles exactly on a poll that shows an unchanged spec or a newer converged update, gives up exactly on a newer wedged one, times out no earlier than the timeout and the monitor window it saw, keeps the run one at a time, and ends |
| Rollout.RollService | charts/rollout.go:105-125 | one deploy and its wait advance a run by exactly one service, or stop it there |
| Rollout.RollNext | charts/rollout.go:114-120 | the service's last update is noted just before it is handed over, and only it takes off |
| Rollout.RollOneAtATime | charts/rollout.go:100-127 | rolls the pending services in order, each deploy one stage further, never two in flight; on success all settled with new definitions, else stopped at one service with the later ones untouched |
| Flights.StageGrows | charts/rollout.go:94-113 | a stage is the one before plus exactly one held service, and the last is the whole manifest |
| Flights.StagedNext | charts/rollout.go:36-44 | an accepted stage moves exactly one service to its new definition; a failed one leaves only that service in doubt |
| Flights.HandOne | charts/rollout.go:105-120 | handing over a stage sends exactly its new service flying and keeps the run one at a time |
| Flights.PollWhileRolling | charts/rollout.go:147-163 | a poll lands the service in flight exactly when it settles it, and moves no other |
| Deploys.FirstManifest | charts/release.go:404-423 | the first manifest is without the held services, or with the first of them when none would be left |
| Deploys.FirstDeploy | charts/release.go:401-446 | decides from one poll what to hold back and hands over the first stage, with the leading service's last update noted before it |
| Deploys.RollHeld | charts/release.go:458-469 | the leading service is waited for, then the others rolled, to the end or to where the run stopped |
| Deploys.PollsAfterLanding | charts/release.go:470-474 | later polls undo nothing of a run that is through |
| Guarantees.TwoUpNeverFlyTogether | charts/rollout.go:46-173 | two services labelled sequential, of which the poll a run begins with finds every wanted task running, are at no moment of it both in flight |
| Guarantees.LandedWasSettled | charts/rollout.go:129-163 | a landed service was handed over, and a later poll showed its task spec unchanged, or the target met, the window outlived and an update newer than the one the last poll before that deploy showed |
| Guarantees.ChainGrows | charts/rollout.go:94-113 | consecutive deploys differ by exactly one held service, defined as in the whole manifest, which a finished run deploys last |
| Guarantees.SuccessUpdatesEveryService | charts/release.go:458-478 | a run that got to the end gave every service its new definition and changed no other on a preserving backend |
| Guarantees.StoppedRolloutKeepsTheRest | charts/rollout.go:122-127 | after a wedge, timeout or cancel exactly the held services after the failing one keep their old definition |
| Guarantees.FailedDeployTearsOne | charts/rollout.go:116-120 | after a failed deploy in a rollout only the service it added is in doubt |
| Guarantees.FailureLeavesNoTrace | charts/release.go:356-446 | before an accepted first deploy no record is written, the networks are as found when every removal succeeds, and none that was there is ever removed |
| Guarantees.NetworksConserved | charts/release.go:393-453 | however a run ends the networks are those found, unchanged, plus ones its manifest names external, made as declared; past an accepted first deploy the new ones are exactly those its record names, and none the manifest needs is missing |
| Preflight.EnsureExternalNetworks | charts/release.go:497-546 | creates only networks that were missing and may be created, with the declared driver and attachability, and names exactly those; it succeeds, mishaps aside, if and only if every external network is declared, and usable or missing, named once and allowed to be made |
| Preflight.EnsureNetwork | charts/release.go:512-536 | a network found with swarm scope is used, one of another scope never, a missing one is made exactly when it may be and the swarm lets it |
| Preflight.RemoveCreated | charts/release.go:396-398 | takes back what was created, and nothing that was there before; what it could not take back it says |
| Preflight.NothingStranded | charts/release.go:437-442 | with no failed removal the networks are exactly as found |
| Preflight.EnsureExternalSecretsConfigs | charts/release.go:618-678 | without a mishap it succeeds exactly when every external secret and config exists and is declared |
| Engine.DeployAndRecord | charts/release.go:359-479 | for every way out: the exact record written or none, which older revisions a limit may trim, what was deployed how far, the networks found and created, and what is left behind; without a mishap exactly a revision that cannot be deployed is turned down; a dry run changes nothing |
| Engine.DeployPrepared | charts/release.go:393-450 | networks are taken back unless the first deploy was accepted; otherwise they are kept and known |
| Engine.RecordAndRoll | charts/release.go:454-469 | recorded before anything is waited for, exactly once, stamped, with exactly the networks created, none of which it touches; a revision that could not be recorded is still the one launched |
| Engine.Finish | charts/release.go:470-478 | a requested wait ends on a converged poll; only a limit on the history removes anything, and without a mishap exactly the revisions beyond it |
| Engine.OneRecordedKeeps | charts/release.go:454-478 | after recording and trimming the record is on top, and every config that is no record of the release is as it was |
| Verbs.Install | charts/release.go:228-242 | refuses a bad name and a release that exists; otherwise deploys a revision numbered above every stored one |
| Verbs.Upgrade | charts/release.go:247-263 | refuses a release that does not exist unless asked to install it |
| Verbs.Rollback | charts/release.go:268-301 | deploys the target's chart, values, manifest and files; without a mishap it refuses exactly a missing or failed target or an unreadable store |
| Verbs.RollbackTop | charts/release.go:288-293 | the revision a rollback records is the new top and has the target's content |
| Verbs.VerbKeepsOthers | charts/release.go:228-301 | whatever a verb did, every config but the records of its release is as it was, and a record it wrote is the newest |
| Verbs.LogAppended | charts/release.go:454-478 | the log grows by the revision recorded and by that alone when nothing limits the history; with a limit the newest revisions are all still there however many deletions fail |
| Verbs.LiveTopExists | charts/release.go:236-256 | the check on the last history entry decides whether the release exists |
| Engine.NamesAllowed | charts/release.go:1562-1585 | a release name is allowed exactly when it is one or more letters, digits, dashes, underscores and dots |
| Releases.ConfigNameInjective | charts/release.go:1526-1528 | a config name determines the release and the revision |
| Releases.LabelsSay | charts/release.go:1131-1144 | what each label of a record holds, and that an unowned one has no owner label |
| Releases.LabelsTell | charts/release.go:1131-1144 | equal labels mean the same revision, chart, status and owner |
| Releases.RecordsAreLabelled | charts/release.go:916-935 | a config is a record exactly when its type label says so and no stack owns it |
| Releases.DeriveStatuses | charts/release.go:952-963 | only the newest revision keeps a deployed status |
| Releases.LogUnique | charts/release.go:916-947 | a store has one log per release |
| Releases.HistoryTop | charts/release.go:965-978 | the last history entry is the newest stored revision, and the next number is above all stored |
| History.SortedByRevision | charts/release.go:941-945 | revisions with different numbers sort into a strictly increasing log of the same revisions |
| History.AllRevisions | charts/release.go:916-947 | every group is its release's whole history; without a mishap it fails exactly when some record does not decode |
| History.Revisions | charts/release.go:908-914 | the history of one release |
| History.StoreRevision | charts/release.go:1126-1146 | writes one record of a payload that fits under its own name, or nothing |
| History.Record | charts/release.go:989-1004 | tries six numbers at most, each after a collision and a new read past the one before; appends exactly one record, under the first fresh number that is free from the one asked for on, or nothing; without a mishap it fails only on a store it cannot read, a record that does not fit, or six taken numbers |
| History.AppendedTop | charts/release.go:984-1004 | a record with a fresh number becomes the top and touches no other config |
| History.Prune | charts/release.go:1191-1220 | with no error and no dry run exactly the newest revisions are left; a failing deletion stops no other: at most as many planned configs are left as deletions failed |
| History.PruneHistory | charts/release.go:1251-1261 | best effort: either nothing is deleted because the store could not be read, or only planned revisions are gone and at most as many of them left as calls failed |
| History.PrunedKeeps | charts/release.go:1251-1261 | whatever deletions fail, the current revision stays and so does every config that is no record of the release |
| History.PrunedLog | charts/release.go:1191-1220 | when none fails, the log left is exactly the newest revisions |
| Pruning.PlanPrune | charts/release.go:1176-1185 | marks for deletion exactly the revisions the plan function names |
| Pruning.KeepsTheNewest | charts/release.go:1173-1185 | keeps exactly the newest min(keep, n) revisions, all of them for a keep that is not positive |
| Pruning.SurvivorsUnchanged | charts/release.go:1173-1185 | current revision, next number and every survivor's status are unchanged |
| Pruning.PruneTwice | charts/release.go:1173-1185 | pruning by j after k is pruning by the tighter of the two |
| Pruning.PrunedStore | charts/release.go:1205-1220 | deleting the planned configs leaves the newest revisions as the log, and other releases alone |
| RecordProtocol.StepKeeps | charts/release.go:989-1004 | every step of every engine keeps the invariant and changes no stored config |
| RecordProtocol.StoreOnlyGrows | charts/release.go:984-1004 | over any run no stored config changes or goes |
| RecordProtocol.RecordsAgree | charts/release.go:1126-1146 | over any run a record's name, labels and payload agree |
| RecordProtocol.ClaimsAreDistinct | charts/release.go:984-1004 | over any run no two records are of one revision, each is still stored as written, and each number exceeds every one its engine read when choosing it |
| RecordProtocol.ClaimsOrdered | charts/release.go:995-1001 | a number chosen after a read is above every record stored at that read |
| RecordProtocol.EveryRecordWasClaimed | charts/release.go:1126-1146 | every config of a run was there at the start, was made by some engine or put there by somebody else, and is still as it was then |
| RecordProtocol.RecordIsARun | charts/release.go:989-1004 | what the recording method does to a store is what the protocol steps it stands for do: a creation and a new read for each collision, then a creation or a failure |
| RecordProtocol.RunGoesOn | charts/release.go:984-1004 | steps that can be taken where a run got to make it a longer run, so the results on runs hold of a recording after any steps of others |
| Waiting.PollRound | charts/release.go:1308-1323 | one poll per release in order, stopping at the first that shows a service swarm has given up on; nothing pending exactly when every release had services and each had met its target and outlived its window |
| Waiting.WaitWave | charts/release.go:1299-1333 | success exactly on such a round; a service swarm has given up on ends it at once; a timeout no earlier than the timeout asked for, or five minutes; it ends |
| Phase.Rollup | charts/release.go:1499-1524 | wedged exactly when swarm has given up on some service, converged exactly when there are services and all are settled, and the first service to blame |
| Phase.ConvergenceMeans | charts/release.go:1377-1460 | on the fields of a state: wedged exactly for a dead one-shot short of its target, a pause not outgrown, a job paused short of it, or a rollback that ended; converged exactly with the target met, in no update or rollback, and the window outlived |
| Phase.AgeingNeverWorsens | charts/release.go:1471-1491 | time passing alone never makes a release's phase worse |
| Phase.PhaseSays | charts/release.go:1377-1491 | the same on the tasks of a snapshot: which sets of slots make a service wedged or converged, for every update state and age |
| Phase.StateSays | docker/convergence.go:257-281 | what a poll says of a service, field by field, in terms of its tasks and its spec |
| Phase.OutgrownPause | charts/release.go:1405-1413 | a paused service that reads converged runs its current spec in as many slots as it wants |
| Planning.ListReleases | charts/release.go:863-876 | exactly the releases whose newest revision is not uninstalled, with that revision |
| Planning.OneRightAction | charts/apply.go:286-303 | a release has exactly one right action against a store |
| Planning.PlanRelease | charts/apply.go:220-304 | install, upgrade or unchanged, as the fields of the newest revision say |
| Planning.PlanApply | charts/apply.go:148-200 | every release of the file with its right action in wave order, and the other live releases split by whether the plan's owner installed them |
| Planning.ActionDecided | charts/apply.go:456-473 | an entry of a plan is unchanged exactly when the newest revision is live and has the chart name and version, manifest, files and canonical values wanted, and no stamp of another owner; it is an upgrade when any of that differs, and an install when there is no live revision |
| Planning.OwnedIsStamped | charts/apply.go:203-217 | a release is owned exactly when its stamp is the text of that id, kind and its own name, and the id has no colon |
| Planning.SortedByWave | charts/apply.go:182-188 | sorting keeps every entry and puts waves in order |
| Planning.SortedByWaveStable | charts/apply.go:182-188 | and keeps the file's order within a wave |
| Apply.WaveGroups | charts/apply.go:408-418 | maximal runs of one wave whose concatenation is the plan |
| Apply.GroupsAscend | charts/apply.go:402-418 | in a sorted plan later groups are of strictly later waves |
| Apply.ApplyEntry | charts/apply.go:373-385 | deploys one entry, installing it where it is not there; writes for its release only, and leaves what was wanted as the newest revision; its older revisions, other configs and networks are kept; without a mishap it fails only for a bad name, an unreadable store, a revision that cannot be deployed, or an operation that failed after its deploy |
| Apply.KeptTwice | charts/apply.go:365-386 | entries applied one after the other keep what each keeps: foreign configs, other releases, the newest revisions of every log, and all networks but new ones an entry made |
| Apply.RecordedHolds | charts/apply.go:456-473 | a recorded revision reads back as what was wanted, owner included |
| Apply.ApplyWave | charts/apply.go:365-386 | results are a prefix of the entries; unchanged entries reach no backend call; without a mishap it stops only at an entry that could not be applied |
| Converge.ApplyPlan | charts/apply.go:354-400 | a prefix of results, each of which stands, with at most one record more on failure; one record per entry that writes on success; everything else kept in the store and the networks; a barrier after every wave that wrote but the last; without a mishap it stops only at an entry that could not be applied or a round of polls that found a wave not converged |
| Converge.LaterWavesWait | charts/apply.go:338-346 | before anything of a later wave is handed over, every release an earlier wave wrote was seen converged after that wave's last deploy |
| Converge.Fixpoint | charts/apply.go:322-329 | planning the same file after a successful apply finds everything unchanged, and the apply wrote one record per entry that was not |
| Converge.ReportedHolds | charts/apply.go:456-473 | every entry the results report holds, whether or not the apply got to its end |
| Converge.Resumed | charts/apply.go:322-352 | planning again after an apply that stopped keeps the order and finds unchanged everything that apply reported |
| Converge.BarrierIsForgotten | charts/apply.go:387-400 | the next apply comes to the wave after a reported one without a poll, even where that one had not converged |
| Tasks.NewestTaskPerSlot | docker/service.go:626-653 | for each slot of the service, and no other, its newest task |
| Tasks.SlotKeyTells | docker/service.go:644-653 | numbered slots are told apart by number, and a task without one belongs to its node |
| Tasks.RestingRun | docker/convergence.go:359-375 | the previous run of a slot whose newest task waits for its restart |
| Tasks.LatestOfSameTasks | docker/service.go:626-653 | which task is newest depends on which tasks are listed only |
| Tasks.LatestWithout | docker/service.go:626-653 | dropping a task that is not the latest changes nothing |
| Counting.CountService | docker/convergence.go:162-281 | each count is the size of a set of slots given by the fields of their standing task: running, up to date, starting, completed and dead; with the target, the youngest such task's age and a reason a dead one gives |
| Counting.StackConvergence | docker/convergence.go:150-162 | those facts for each service of a stack, in the snapshot's order |
| Counting.JudgeMeans | docker/convergence.go:198-246 | which arm of the counting loop a task falls in, on its fields |
| Counting.TargetIsDesired | docker/convergence.go:406-434 | a service on every node wants one task per node that takes tasks and is admitted; others what they declare, or one |
| Counting.OrderDoesNotMatter | docker/convergence.go:162-281 | lists of the same tasks give the same facts |
| Counting.PermutationDoesNotMatter | docker/convergence.go:162-281 | permuting the task list changes no fact |
| Counting.HistoryDoesNotMatter | docker/convergence.go:359-375 | dropping a task below the two newest of its slot changes no fact |
| Counting.CountedOncePerSlot | docker/convergence.go:162-256 | up-to-date is at most running, and all counts together at most the slots |
| Counting.GlobalCountedPerNode | docker/convergence.go:162-256 | for a global service they are together at most the schedulable nodes |
| Counting.CountUpToDateTasks | docker/service.go:601-612 | counts the slots whose newest task runs and is newer than the rollout's start |
| Counting.WaitWithinView | docker/service.go:590-612 | the wait never counts a slot as up to date that the view does not |
| Values.LookupPath | charts/values.go:207-225 | reads a path, absent where a hop finds another kind of container |
| Values.GetAfterSet | charts/values.go:229-250 | a path reads what was set there |
| Values.SetAfterSet | charts/values.go:229-250 | setting again overwrites |
| Values.SetToItself | charts/values.go:229-250 | setting a path to what it reads changes nothing |
| Values.SetLeavesOtherPaths | charts/values.go:229-250 | what every diverging path reads after a set, nulls of list growth and replaced containers included |
| Values.AtIsLookup | charts/values.go:207-225 | reading by keys is reading the path of those keys |
| Values.MergeByPaths | charts/values.go:280-293 | the meaning of a merge at every key path |
| Values.MergeIdempotent | charts/values.go:280-293 | merging a tree into itself changes nothing |
| Values.MergeTwice | charts/values.go:280-293 | merging the same overrides twice is merging them once |
| Values.MergeWithNothing | charts/values.go:280-293 | the empty map is neutral on both sides |
| Values.MergeNotAssociative | charts/values.go:280-293 | three maps for which grouping matters |
| Values.MergeAssociativeIff | charts/values.go:280-293 | grouping does not matter exactly when no scalar of the middle map stands between maps it hides |
| Values.LaterFilesWin | charts/values.go:16-29 | what a file holds at a path no later file touches is in the result |
| Values.ReuseValuesByPaths | charts/values.go:270-278 | previous values win, and defaults the previous release never had stay |
| SetGrammar.SplitCommas | charts/values.go:148-174 | the loop computes the split |
| SetGrammar.JoinOfSplit | charts/values.go:146-174 | the parts joined by commas rebuild the input |
| SetGrammar.SplitOfJoin | charts/values.go:146-174 | parts that close their braces and end in no backslash split back into themselves |
| SetGrammar.UnescapeOfEscape | charts/values.go:176-177 | escaped commas come back, backslashes and all |
| SetGrammar.UnescapeKeeps | charts/values.go:176-177 | a text in which no backslash stands before a comma is left as it is |
| SetGrammar.EscapedIsOnePart | charts/values.go:141-174 | an escaped text is never split, whatever braces it leaves open |
| SetGrammar.TrimOfEscape | charts/values.go:48-61 | trimming and escaping do not interfere |
| SetGrammar.ParseSetPath | charts/values.go:108-140 | the loops compute the parse, with the first error of the text |
| SetGrammar.ParseOfPrint | charts/values.go:105-140 | parsing inverts printing of every well-formed path |
| SetGrammar.FlattenOfSegments | charts/values.go:98-140 | every path that starts with a key is a list of segments |
| SetGrammar.ApplySet | charts/values.go:46-64 | pairs apply left to right up to the first that cannot |
| SetGrammar.SetRoundTrip | charts/values.go:46-64 | an override for a settable path always applies, and reads back as its text exactly when that has no white space at its ends, is no list, none of true, false, null and nil, no 64-bit integer and no float |
| SetGrammar.SetManyRoundTrip | charts/values.go:146-174 | several overrides in one expression apply one after the other |
| SetGrammar.InferMeans | charts/values.go:252-268 | inference finds exactly the value a text stands for: the four words, a 64-bit integer, a float, or the text |
| SetGrammar.SetScalar | charts/values.go:46-64 | after an override the path reads exactly what the text stands for, white space around it aside |
| SetGrammar.SetWords | charts/values.go:252-262 | true, false, null and nil read as themselves |
| SetGrammar.SetInteger | charts/values.go:262-265 | the printed form of every 64-bit integer reads that integer |
| SetGrammar.SetListRoundTrip | charts/values.go:179-196 | a list of scalars reads the list of what their texts stand for, and an empty one the empty list |
| SetGrammar.WholeWithoutClosers | charts/values.go:148-174 | a list none of whose texts has a closing brace is never cut at its commas |
| SetGrammar.TrimDrops | charts/values.go:48-61 | trimming drops exactly the white space at the ends |
| ValuesHeap.DeepCopy | charts/values.go:295-317 | a copy has the same value and shares no container with anything |
| ValuesHeap.DeepMerge | charts/values.go:282-293 | merging in place computes the merge, changes no container of the source, and holds only containers of the two trees |
| ValuesHeap.SetInPlace | charts/values.go:232-250 | setting in place computes the set value, changes only the tree it is given, and keeps a root of the right kind |
| EffectiveValues.ApplySetInPlace | charts/values.go:46-64 | an override applied in place is the override applied to the value, whether it succeeds or stops |
| EffectiveValues.MergeValues | charts/values.go:19-36 | defaults, files and overrides in order; the result shares no container with the defaults, which keep their value |
| EffectiveValues.ReuseValuesInPlace | charts/values.go:270-278 | neither argument is changed or shared |
| Levenshtein.Distance | registry/spec.go:63-91 | the two-row loop computes the edit distance |
| Levenshtein.FillTable | registry/spec.go:63-91 | the two rows, swapped, run through a whole table of the recurrence and end at the distance |
| Levenshtein.CellIsEdit | registry/spec.go:76-88 | every cell is the distance of the prefixes it stands for |
| Levenshtein.EditIsShortestScript | registry/spec.go:58-91 | the distance is the length of a shortest edit script |
| Levenshtein.EditIsMetric | registry/spec.go:58-91 | zero only for equal strings, symmetric, triangle inequality |
| Suggest.SuggestFlag | commands/api/validate.go:51-70 | the nearest flag within the threshold, ties by name, or none |
| Suggest.AnswerUnique | commands/api/validate.go:48-70 | the answer depends on the set of flags only |
| Text.LessAtFirstDifference | commands/api/validate.go:51-70 | names are ordered by the first character in which they differ, a start before what it starts |
| Suggest.SuggestCommand | cli/commands.go:278-294 | the first nearest name within the threshold |
| Suggest.FirstNearestOfSorted | cli/commands.go:262-294 | on a sorted list that is the same answer as for flags |
| Columns.DistributeColumns | ui/columns.go:11-87 | grows, shrinks the flexible columns evenly, then squeezes all as a last resort |
| Columns.FitsExactly | ui/columns.go:11-87 | with room for a cell each the widths fill the space exactly and every column keeps a cell |
| Columns.LevelledUnique | ui/columns.go:46-66 | levelling leaves no choice: one total width, one result |
| Columns.ShrinkingLevelsOff | ui/columns.go:46-66 | no flexible column ends more than one wider than one that was cut, and no column grows |
| LogStream.StripDockerLogHeaders | docker/service.go:787-817 | the loop decodes the stream, in bounds and ending on every input |
| LogStream.ParseOfEncode | docker/service.go:770-817 | reading what was written gives the frames back |
| LogStream.EncodeOfParse | docker/service.go:770-817 | reading succeeds only on bytes framed so |
| LogStream.DecodedOfEncoded | docker/service.go:770-817 | decoding encoded frames yields exactly their payloads |
| LogStream.DecodedIffFramed | docker/service.go:787-817 | what the decoder yields, exactly when the bytes are a multiplexed stream |
| LogStream.DecodedMeans | docker/service.go:787-817 | the payloads where the bytes start and are framed as a stream; the bytes unchanged everywhere else |
| ArchiveCache.VerifiedIffKey | charts/repo.go:805-864 | a body verifies exactly when its sum is the key it would be cached under |
| ArchiveCache.KeyIffPublished | charts/repo.go:848-864 | an entry has a key exactly when it publishes 64 hex digits, bare or after sha256: |
| ArchiveCache.KeyOfDigits | charts/repo.go:848-864 | and the key is those digits in lower case |
| ArchiveCache.RepoStore.DownloadArchive | charts/repo.go:736-772 | only transient failures are retried, in three attempts at most |
| ArchiveCache.RepoStore.CacheArchive | charts/repo.go:903-935 | writes under the key only, and drops exactly what nothing read for thirty days, but for calls the file system fails |
| ArchiveCache.RepoStore.Pull | charts/repo.go:677-722 | answers as a plain download would, or with a cached body that passes the same check; where the file system fails no call, a hit is not fetched and what was fetched under a key is cached |
| ArchiveCache.PulledOnce | charts/repo.go:677-722 | so an archive with a checkable digest is downloaded once |
| ArchiveCache.CacheIsTransparent | charts/repo.go:866-898 | whatever the cache holds, a pull agrees with any plain download that succeeds |
| ArchiveCache.NothingUnverified | charts/repo.go:789-828 | unverified bytes are used only without a published digest, and then were just downloaded |

## Left out

- Uninstall, its purge of volumes, PruneAll, status and history display: further callers of the same log and backend.
- YAML, text/template, Sprig, JSON Schema, SemVer and compose interpolation: a manifest is a list of services with their labels and an opaque rest, and a chart's rendering is an input of the plan.
- The text of errors, reasons and warnings; a method that fails says how far it got.
- Refreshing the shared snapshot after a deploy: polls may answer anything, so it makes no difference here.
- Planning's order of failures: rendering, merging and validation errors of one release are not modelled.
- Strings are sequences of characters; the byte-wise loops of the source see the same separators.
- Floating-point scalars are kept as the text they were written as, with the library's float syntax a parameter of inference.
- The time in a release record is printed as a number instead of as RFC 3339.
- A slice's spare capacity: a list in the heap model is one container that grows in place.
- Values files are decoded by a method that builds a new tree; the decoder itself is a library.
- Concurrent writers during a deploy or an apply: the engine's methods are proved with no other writer, and the interleaving of recorders in `RecordProtocol`, without deletions, since a concurrent prune can free a number below the top.
- SetGrammar.SetRoundTrip: asks that the printed path holds no equals sign and no white space at its ends, because the text before the first equals sign is trimmed.
- SetGrammar.SetListRoundTrip: asks that no text of a list ends in a backslash, which would escape the comma after it, and that no closing brace in a text leaves a comma outside all braces, which would end the override.
- Counting.CountSlots: which of several dead tasks' reasons is reported depends on map order and is left open.
- Repository indexes, their refresh and staleness warnings, and the choice of a version: input and output around the archive cache.
- User interface, telemetry, settings, Docker SDK calls and the guards that walk compose files.
