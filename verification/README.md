# StormStorage, modelled and proved in Dafny

StormStorage is the control plane of a replicated block store. It moves no data itself: it asks storage engines to do
things, one call at a time, and keeps a record per volume, backup and migration. What can go wrong is in between the
calls: an answer is lost, a process stops, another instance acts, a node goes away. This project models the parts of
StormStorage where that matters and proves what holds in every such run. `dafny verify dfyconfig.toml` checks all of it.

| files | what they model |
|---|---|
| `Records`, `FederationState`, `FederationAnswers`, `StoreInstance`, `FleetStore`, `FleetAnswers`, `WrittenTheory` | the fleet store: N instances over one etcd, elections, guarded writes in chunks, the `written` cache, follower loads |
| `Base64`, `KeyRange` | the byte arithmetic under it |
| `Placement`, `PlacementTheory`, `ScoreTheory`, `DomainTheory`, `Sorting`, `Order` | one node per failure domain, the best first |
| `Rebalance`, `RebalanceAnswers`, `RebalanceTheory` | a pool's rebalance pass, and repeated passes |
| `Superblocks`, `SuperblockAnswers` | when a copy may be called in sync, and automatic re-heads |
| `Volumes`, `VolumeOps`, `VolumeAnswers`, `Lifecycle`, `LifecycleTheory` | a mirrored volume: lost legs, replacements, rejoins, reassembly, fences, promotes, windows |
| `RelegTheory` | which legs are replaced and where the new ones go, when that was decided earlier |
| `Backup`, `BackupAnswers`, `BackupTheory` | incremental backups whose ships fail |
| `StateFile`, `StateFileAnswers`, `StateFileTheory` | the state file: ordered file-system steps, concurrent saves, power cuts |
| `VmMigration`, `VmAnswers` | live migration of a volume in use |
| `Expand`, `ExpandAnswers` | growing a volume bottom up |
| `TierMigration`, `TierAnswers`, `TierTheory`, `RungTheory` | moving a volume's legs into another pool, and its failure domains when that changes its rung |

The pieces fit one scheme. Code that changes a record in place is a class, or a method with the source's loop; its
`ensures` ties the new record to a function of the old one and of the engines' answers. Those functions are the steps
of a machine, and the theorems are about every run of it. In most machines a step that the source would refuse changes
nothing, so every sequence of steps is a run.

What each of those functions answers is stated once more without it, in the modules named `...Answers`: by the fields of the
record and of what is read, in both directions, so that each check, branch and order of the source is a clause of a lemma.

## What was found

Some properties one would expect hold only under a condition. Each is proved with the condition, and the run, the pass or
the answers that break it without are a lemma beside it; a member whose name ends in `Exactly` is an equivalence.

- An assembly does not look again whether the volume is still pending once it has the claim (src/orchestrate.rs:56-98).
  The reconciler decides on one at src/orchestrate.rs:788 and claims the volume at src/orchestrate.rs:905, after it has
  waited for the re-legs of other volumes. One that runs late moves an assembled volume's head back to its first leg, with
  no promote (`AStaleAssemblyMovesTheHead`). Only promotes move the head exactly when no such assembly finds the head
  elsewhere (`OnlyPromotesMoveTheHeadExactly`).
- A replacement does not look again which leg it takes as it begins (src/orchestrate.rs:421-451). An automatic re-leg
  takes a lost leg that is not the head's as long as no leg is put back on that node meanwhile
  (`AutomaticRelegsLeaveTheHead`); else it can take the head's own (`AStalePlanTakesTheHeadsLeg`). The check it lacks is the
  exact condition (`AStartServesTheHeadExactly`, `HeadKeepsItsLegExactly`).
- A rebalance and a tier migration pick a target before the replacement begins, and a target that is given is not checked
  for its failure domain (src/orchestrate.rs:452-466). If another leg of the volume moves in between, two legs can share a
  domain (`AStalePickJoinsDomains`). Again the missing check is the exact condition (`AStartKeepsDomainsApartExactly`,
  `DomainsStayApartExactly`, and where the volume's rung changes `LegsStayApartExactly`).
- A tier migration picks at the destination pool's rung and not at the volume's (src/migrate.rs:57-65), so its moves can
  join two legs in a domain of the volume's rung with nothing else moving, and where the head's own leg stays behind they
  stay joined (`ATierMoveJoinsDomains`). A move keeps the legs apart exactly when its target is apart at the volume's rung
  too (`ATierMoveKeepsDomainsApartExactly`), and all such picks do exactly when no node of the pool shares a domain at
  that rung with one it does not share its domain with at the pool's (`TierPicksKeepDomainsApartExactly`).
- A migration that is done gives the volume the pool's rung (src/migrate.rs:243-248), and legs that were in the pool
  already are never compared with each other: two can share a domain at the new rung (`ADoneMigrationJoinsDomains`). The
  legs are apart at it exactly when those were that were in the pool at the start (`DoneSpreadsExactly`).
- A rebalance counts a moved leg at the volume's size (src/rebalance.rs:115-133), while the leg is made at the size an expand
  in flight asks for (src/model.rs:432-434, src/orchestrate.rs:486). A target can end above the high watermark
  (`AnExpandPutsATargetOverHigh`); none does exactly when each move meets the guard with the bytes of the leg
  (`TargetsStayUnderHighExactly`).
- Raising an expand's target after the array has grown, or after a grow whose answer was lost, can record a size the
  array does not have (src/expand.rs:191-224). The documentation of the call promises the opposite. `MayRaise` is the exact
  condition (`SizeMovesLast`, `ARaiseIsSafeExactly`; `AnEarlyRaiseIsNeeded` has the answers that break it).
- A state file whose path has no directory part is saved without syncing the directory (src/model.rs:610-637), so a save
  that returned can be lost from any disk (`ABareNameCanLoseASave`); returned saves survive exactly with that part
  (`ReturnedSavesSurviveExactly`).
- Where a start finds a state that does not parse and cannot set it aside, the next save links it over the good previous
  copy before it writes its own (`AStuckBadStateCostsThePrevious`, `ThePreviousIsKeptExactly`). Setting it aside is a rename
  that nothing syncs (src/model.rs:718), so a cut can undo it, and the next start may fail where this one did not: a first
  start is safe in all runs exactly when there was no bad state over a good previous copy (`AFirstStartIsSafeExactly`).
  Where every later start sets a bad state aside, it is also safe when it did so itself (`AStartIsSafeExactly`).
- Completing a disk migration deletes the source volume before it records that (src/vmmigrate.rs:500-518). A crash in
  between leaves the migration cut over, and an abort then deletes the other copy too
  (`ACrashWhileRetiringCanLoseTheDisk`). The source volume is kept exactly when no retire ends so
  (`SourceIsKeptExactly`), and the disk is gone exactly after such a retire and such an abort (`TheDiskIsLostExactly`).
- A new leader that imports the file's records clears `written` after it has become the leader (src/store.rs:876-891); a
  sync in between is forgotten (`ImportRaceEmptiesWritten`). A write whose answer is lost leaves `written` behind the store
  (`LostAnswerLeavesWrittenBehind`). Off the keys in doubt `written` is the store, always (`WrittenIsTheStore`). It is the
  store outright in runs of harmless steps, and each step that is not harmless breaks that in some continuation
  (`HarmlessWrittenIsTheStore`, `AStepIsHarmlessExactly`): a clear is harmless exactly when `written` is empty, or its
  `meta` revision is not the store's and the instance's terms are over (`AClearIsHarmlessExactly`); a write with no answer
  exactly when it changes nothing (`ALostAnswerIsHarmlessExactly`).

## Model

| member | source | states |
|---|---|---|
| FleetStore.WritesStayInTheirTerm | src/store.rs:547-625 | in every run of any number of instances, with lost, delayed and repeated answers, a write that lands is its term's: after the key its sender created, before any later term's |
| FleetStore.RecordsComeWithMeta | src/store.rs:571-625 | a store with records has `meta` |
| FleetStore.WrittenIsTheStore | src/store.rs:629-663 | an instance whose `meta` revision is the store's holds in `written` what the store holds, but for keys it cannot be sure of; also for loads between chunks |
| WrittenTheory.HarmlessWrittenIsTheStore | src/store.rs:571-663 | in runs of harmless steps every instance whose `meta` revision is the store's holds in `written` exactly its records |
| WrittenTheory.AStepIsHarmlessExactly | src/store.rs:571-911 | after such a run a step keeps that in every harmless continuation exactly when it is harmless: a write lands while its sender waits or changes nothing, an answer is given up or `written` cleared only where that cannot matter any more |
| WrittenTheory.AClearIsHarmlessExactly | src/store.rs:885-888 | clearing `written` for an import does no harm exactly when it is empty, or its `meta` revision is not the store's and no key this instance led with stands |
| WrittenTheory.ALostAnswerIsHarmlessExactly | src/store.rs:593-603 | a write whose answer is lost does no harm exactly when it leaves the records as they were |
| FleetStore.RunKeepsInv | src/store.rs:764-911 | the invariant behind these, over elections, expiries, syncs, loads and steps down |
| FleetAnswers.WriteLandsExactly | src/store.rs:547-595 | a write takes effect exactly while the key its sender created stands: its operations and `meta`, at one revision |
| FleetAnswers.WriteAnswersExactly | src/store.rs:596-625 | its sender learns that it landed, or was refused, exactly when it is answered and still waits; else it is unsure of the keys that landed |
| FleetAnswers.CreateBeginsExactly | src/store.rs:833-868 | the leader key is created exactly where there is none and its lease lives, and what its sender makes of the answer |
| FleetAnswers.ReadTakes | src/store.rs:629-663 | a read replaces `written` exactly where the store holds `meta` and every record parses, and when a term may be led after it |
| FleetAnswers.AnswerTakes | src/store.rs:593-623 | an answer makes the chunk count as written and the next one go out, or ends the lead |
| FleetAnswers.ActsAlone | src/store.rs:584-603 | a step of one instance leaves the others and the store alone, and which request it then waits for |
| FleetAnswers.LeaseEnds | src/store.rs:764-781 | a lease that ends takes exactly the leader key bound to it along |
| FleetAnswers.LeadTakes | src/store.rs:876-894 | the lead is of the term whose key was created, an import to come where nothing was held |
| FleetAnswers.ReadsAll | src/store.rs:629-645 | a load reads all the store holds at one moment |
| FleetAnswers.StepsExactly | src/store.rs:571-911 | which steps an instance can take: `written` is read or written by one thread at a time, a chunk has at most 100 operations |
| FleetAnswers.OthersChange | src/store.rs:764-911 | what the other steps change, by the fields |
| FleetStore.TwoCanBelieveTheyLead | src/store.rs:821-894 | a run in which two instances have role leader, so only the guard keeps writes apart |
| FleetStore.LostAnswerLeavesWrittenBehind | src/store.rs:571-625 | a lost answer leaves an instance with a `written` that is not the store's at its `meta` revision |
| FleetStore.ImportRaceEmptiesWritten | src/store.rs:876-894 | a sync between taking the lead and clearing `written` is forgotten |
| StoreInstance.Store.StepDown | src/store.rs:764-781 | the lead and its revision are dropped, `written` kept |
| StoreInstance.Store.Sync | src/store.rs:571-625 | the chunks of the difference are sent in order until one is refused or errs, `written` and `meta` moving with each that landed |
| StoreInstance.Store.Load | src/store.rs:629-663 | memory is replaced only by a range with `meta` whose records all parse |
| StoreInstance.Store.Campaign | src/store.rs:821-894 | the lead is taken only with a key this instance created, on a load of the store; an error leaves it a follower |
| StoreInstance.Store.Follow | src/store.rs:897-911 | a load when `meta` moved, and only then |
| StoreInstance.SyncFromWrites | src/store.rs:584-624 | a sync writes exactly the chunks up to the first that is not confirmed, and that answer decides how it ends and what becomes of the lead and the revision |
| Records.DiffTurnsOldIntoNew | src/store.rs:392-400 | applying the difference of two sets of records to the first gives the second; keys are distinct; equal sets differ by nothing |
| Records.ChunkedApply | src/store.rs:584-624 | in chunks of any size the result is the same |
| FederationState.Federation.ApplyRecords | src/store.rs:330-384 | the state becomes what the records say, or, where one does not parse, nothing changes |
| FederationAnswers.ParsesExactly | src/store.rs:333-358 | for any records: they are taken in exactly when each is read by the reader of its own kind, and one of no known kind is not read |
| FederationAnswers.HeldAfter | src/store.rs:333-365 | for any records taken in: a named record is held exactly when a key is of it, and it and the two lists are what the last of their keys says |
| FederationAnswers.NodeAfter | src/store.rs:366-382 | for any records taken in: own nodes as they were, others exactly those a record names, with the last one's config and the status they had |
| FederationAnswers.KeysAreOf | src/store.rs:336-357 | which record a key is of, for every key |
| FederationState.StoreKeysReadBack | src/store.rs:299-328 | every record's key reads back as its kind and name, slashes included |
| FederationState.AppliedRecordsAreHeld | src/store.rs:299-384 | an instance that applies another's records would write the same, exactly when none of those nodes is one of its own from another source |
| FederationState.StoredRecordsAreHeld | src/store.rs:299-384 | the same for the keys the store uses, with any JSON that reads back |
| FederationState.AppliedValue | src/store.rs:356-384 | own nodes stay as they are, nodes that stay keep their polled status, others come unpolled |
| Base64.B64 | src/store.rs:71-84 | the encoder's loops give the padded text |
| Base64.EncodedIsTheNumber | src/store.rs:71-84 | section 4 of RFC 4648: the sextets are the octets as one number, the last filled with zero bits |
| Base64.EncodedLength | src/store.rs:71-84 | as many sextets as the bits need, and a text of whole groups of four |
| Base64.Unb64 | src/store.rs:86-107 | the decoder's loop gives the octets, or an error exactly when a character is foreign |
| Base64.FeedHolds | src/store.rs:86-107 | its accumulator stays below 2^14 and its bit count below 14 |
| Base64.RoundTrip | src/store.rs:71-107 | decoding an encoding gives the octets back |
| Base64.EncodedText | src/store.rs:69-84 | every character of an encoding is its sextet's in the alphabet of RFC 4648, section 4, and padding follows |
| Base64.FailsExactly | src/store.rs:86-97 | a text is refused exactly when it has a character that is no blank, no padding and of neither alphabet |
| Base64.BlanksDoNotCount | src/store.rs:89 | white space and padding are passed over wherever they are |
| Base64.ReadsEach | src/store.rs:89-97 | every other character is read as its value, of either alphabet |
| KeyRange.RangeIsPrefix | src/store.rs:119-129 | a key is in the range of a prefix exactly when it starts with it; no upper bound only for an empty or all-0xff prefix |
| KeyRange.PrefixEnd | src/store.rs:120-129 | the loop computes that end |
| Placement.ComputeDomain | src/placement.rs:35-53 | a node's domain is the labels from the top rung down to the one asked for |
| DomainTheory.DomainIs | src/placement.rs:35-53 | the domain is the joined labels of the rungs up to and with the one asked for, else the `node` label, else one all such nodes share |
| DomainTheory.LowerIsInside | src/placement.rs:31-53 | a node's domain at a lower rung is, or is inside, the one at an upper rung it is labelled down to |
| Placement.Plan | src/placement.rs:80-131 | the best of each domain, best first, or why there is no plan |
| PlacementTheory.PlanSucceedsExactly | src/placement.rs:80-131 | a plan exists exactly when that many fitting nodes lie in distinct domains, and its picks do |
| PlacementTheory.PlanIsOptimal | src/placement.rs:61-131 | the i-th pick scores at least the i-th best of any choice in distinct domains |
| PlacementTheory.PlanIgnoresOrder | src/placement.rs:80-131 | permuting the candidates changes nothing |
| PlacementTheory.FreeRatioOrder | src/placement.rs:61-78 | with no load readings and weight below 1 the order is the free ratio's |
| ScoreTheory.LoadOrder | src/placement.rs:61-78 | with readings, one candidate is better exactly when its weighted free share and its distance from the busiest reading are worth more, or as much and its name comes first |
| ScoreTheory.NoLoadOrder | src/placement.rs:61-78 | with no load anywhere the free share alone orders them, unless it has no weight; then names do |
| ScoreTheory.ColderIsBetter | src/placement.rs:61-78 | of two as free the one with the lower reading is better, at any weight above 0 |
| ScoreTheory.FreerIsBetter | src/placement.rs:61-78 | of two with the same reading the freer one is better, at any weight below 1 |
| ScoreTheory.NoReadingIsTheMean | src/placement.rs:61-78 | a candidate without a reading stands where one at the mean of the known ones would |
| ScoreTheory.BelowZeroIsZero | src/placement.rs:61-78 | readings below 0 count as 0 |
| PlacementTheory.PlanPreferring | src/placement.rs:139-169 | it succeeds exactly when a plan does, the preferred node leads exactly when it has room, the picks lie in distinct domains |
| Rebalance.PickTarget | src/rebalance.rs:115-131 | the best node that may take the leg and stays under the high watermark, or there is none |
| Rebalance.PlanPool | src/rebalance.rs:57-153 | a pass takes movable legs off sources to the best targets, fullest source and largest volume first, then by name, within its bound; it stops only when the bound is met or nothing more fits; which reason holds it where it moves nothing |
| RebalanceTheory.TargetsStayUnderHigh | src/rebalance.rs:119-133 | every target stays at or under the high watermark with the sizes on record of all the pass promised it |
| RebalanceTheory.TargetsStayUnderHighExactly | src/rebalance.rs:115-133 | in the bytes of the legs that are made, every target does exactly when each move meets the guard with those bytes in place of the size |
| RebalanceTheory.WithoutExpandsTargetsStayUnderHigh | src/model.rs:429-434 | so it does when no volume that moves is being expanded |
| RebalanceTheory.AnExpandPutsATargetOverHigh | src/orchestrate.rs:483-488 | a fleet and a pass over it whose target ends above the high watermark, because the volume it moves is being expanded |
| RebalanceTheory.NoNodeIsBoth | src/rebalance.rs:89-127 | no node is both emptied and filled |
| RebalanceTheory.MovesAreBounded | src/rebalance.rs:81-135 | moves and those in flight stay within `max_moves`; a volume moves once and never off its head |
| RebalanceTheory.RoomIs | src/rebalance.rs:79-85 | the moves a pass may start are `max_moves` less the number of the pool's volumes with a replacement on record |
| RebalanceAnswers.PassMoves | src/rebalance.rs:86-135 | each move is of a leg that may go, off a member above the high watermark, to a member that may take it, in bytes and by the records' fields |
| RebalanceAnswers.PassLeavesNone | src/rebalance.rs:86-135 | a pass with room left over left no leg that may go with a node that may take it |
| RebalanceAnswers.FullerIs | src/rebalance.rs:88 | the source with more in use of what it has comes first, then by name |
| RebalanceTheory.MovesGoApart | src/rebalance.rs:115-118 | a move goes to a healthy node without a leg of the volume, in a domain of its own |
| RebalanceTheory.PassLowersExcess | src/rebalance.rs:57-153 | a pass that moves anything, and whose targets stay under the high watermark with the legs it makes, lowers the pool's bytes above it |
| RebalanceTheory.PassesEnd | src/rebalance.rs:57-153 | repeated such passes end, after at most as many as those bytes |
| Superblocks.ComputeAgreed | src/head.rs:206-225 | the worst of what the newest superblocks say, or removed when one does not list the member |
| Superblocks.WorstWins | src/head.rs:206-225 | a rank is reached exactly when all of them give it |
| Superblocks.InSyncExactlyOnEvidence | src/head.rs:237-352 | a leg reads in sync from superblocks exactly when its own passes the evidence rule |
| Superblocks.AnotherSuperblockNeverRaises | src/head.rs:237-295 | another leg's superblock never raises what a leg reads as |
| SuperblockAnswers.InSyncExactly | src/head.rs:297-368 | from any reading, live or not: a copy is in sync exactly as its volume's one leg, or as a member that its own array's reading has active; rebuilding exactly so too |
| SuperblockAnswers.ResyncingIs | src/head.rs:297-312 | how far a rebuilding copy got |
| SuperblockAnswers.CopiesAre | src/head.rs:328-369 | the copies are the legs and then a replacement's; which one is the master |
| SuperblockAnswers.ReadFromLegs | src/head.rs:237-295 | superblocks make a reading exactly when one is of the volume's array; its count and data size |
| SuperblockAnswers.AgreedIs | src/head.rs:202-224 | the state of the first of the worst records and the least progress at it; removed exactly when one does not list the member |
| SuperblockAnswers.OwnStateIs | src/head.rs:252-262 | a superblock that is not of the newest count, or older than the last live reading, is stale |
| SuperblockAnswers.StateIs | src/head.rs:263-275 | what the last live reading limits it to |
| SuperblockAnswers.LiveIs | src/head.rs:245 | which last reading counts: read live, of this head and array |
| SuperblockAnswers.SlotIs | src/head.rs:212-215 | the first slot of a member is the one that counts |
| SuperblockAnswers.SameUuidIs | src/head.rs:246-247 | uuids are the same but for the case of letters |
| Superblocks.PlanRehead | src/orchestrate.rs:1055-1095 | a re-head is started exactly for volumes whose head is long lost, that nothing else has in hand and that have a safe target, to such a one; a name is held exactly when a volume of that name has none |
| SuperblockAnswers.ReheadsExactly | src/orchestrate.rs:1055-1096 | a re-head is started exactly for a mirror at rest whose head failed its polls long enough, to the first copy that may take over; held exactly where there is none |
| Superblocks.ReheadHasEvidence | src/orchestrate.rs:1055-1095 | the node it names is healthy, not the head's, and its copy passes the evidence rule |
| VolumeOps.MatchArray | src/orchestrate.rs:271-293 | an array is adopted only over exactly the volume's drives, and built only when none holds any of them |
| VolumeOps.VolumeRecord.PlanRecovery | src/orchestrate.rs:762-841 | legs that do not answer are lost, the volume degraded, and what to start is decided |
| VolumeOps.VolumeRecord.Assemble | src/orchestrate.rs:56-98 | the record of a first assembly, or of one that failed |
| VolumeOps.VolumeRecord.RecordReplacement | src/orchestrate.rs:541-555 | the new leg is recorded beside the old one |
| VolumeOps.VolumeRecord.FinishReplacement | src/orchestrate.rs:597-742 | the new leg takes the old one's place, or is undone |
| VolumeOps.VolumeRecord.ApplyHeadReading | src/orchestrate.rs:998-1038 | the head's lost leg is taken back exactly when its member is active in the head's own array |
| VolumeOps.VolumeRecord.Fence | src/head.rs:502-515 | a mirror at the expected epoch goes one epoch up, fenced; else nothing changes and why |
| VolumeOps.VolumeRecord.Promote | src/head.rs:604-737 | a promote's checks, and the record after it; a refusal changes nothing |
| VolumeOps.VolumeRecord.Reassemble | src/head.rs:906-963 | exactly when the array is put back on its head, and the record then |
| VolumeOps.VolumeRecord.OpenWindow | src/head.rs:1259-1290 | who may open a window, and that opening again keeps when it was opened |
| VolumeOps.VolumeRecord.CloseWindow | src/head.rs:1337-1359 | only the presented epoch takes the window |
| VolumeOps.VolumeRecord.ExpireWindow | src/head.rs:1377-1389 | a window past its time is closed, and only that |
| VolumeAnswers.LegsAreLostExactly | src/orchestrate.rs:790-800 | a created leg of a mirror is lost exactly when its node does not answer; no other leg changes |
| VolumeAnswers.LossDegradesExactly | src/orchestrate.rs:801-811 | a volume is degraded afterwards exactly when it was, or when it is an assembled one with a leg lost |
| VolumeAnswers.AssemblesExactly | src/orchestrate.rs:770-786 | a pending volume is assembled exactly when two legs at least are all created on nodes that answer, and nothing holds it back |
| VolumeAnswers.ResumesExactly | src/orchestrate.rs:812-817 | a replacement on record is taken up again exactly when recovery is on and nothing has the volume in hand, whatever retry is due |
| VolumeAnswers.RelegsExactly | src/orchestrate.rs:818-831 | the first lost leg is replaced exactly when none is being replaced, the head answers and keeps its leg, and a retry is due |
| VolumeAnswers.BeginsExactly | src/orchestrate.rs:421-471 | when a replacement begins, by the fields of the volume and the target |
| VolumeAnswers.ReplacedRecord | src/orchestrate.rs:687-742 | the new leg takes the old one's place in the order; the head follows it where it was there; the volume is whole exactly when no leg is lost |
| VolumeAnswers.UndoneRecord | src/orchestrate.rs:597-686 | a replacement that did not rebuild is taken off the record and put off |
| VolumeAnswers.RejoinsExactly | src/orchestrate.rs:998-1038 | the head's lost leg is created again exactly when its own array was read and has the leg's member active; what is answered else, by the same facts |
| VolumeAnswers.RejoinSaysWhy | src/orchestrate.rs:1010-1022 | a member that is there and not active is named with its state, one that is not there is missing |
| VolumeAnswers.RejoinLeaves | src/orchestrate.rs:1023-1038 | no other leg changes, and the volume is assembled exactly when the leg is back and none is lost any more |
| VolumeAnswers.PromoteAnswers | src/head.rs:604-733 | which refusal answers which failing check, in the order they are made: fence and epoch, target, copy, old head, array |
| VolumeAnswers.PromotedRecord | src/head.rs:657-733 | the record after a promote: head, fence, assembly, window, and which legs are lost |
| VolumeAnswers.PromoteMovesTheHeadExactly | src/head.rs:604-733 | a promote moves the head exactly when the record's own checks hold, the old head is none or does not answer, and the array assembles |
| VolumeAnswers.FencesExactly | src/head.rs:502-515 | a fence takes exactly a mirror at the epoch it expects, one epoch up |
| VolumeAnswers.OpensExactly | src/head.rs:1259-1290 | who may open a window, by the volume's fields |
| VolumeAnswers.OpenedRecord | src/head.rs:1259-1290 | the window on record: at the volume's epoch, for its time, with when it was first opened |
| VolumeAnswers.ClosesExactly | src/head.rs:1337-1389 | a close takes the window exactly at its own epoch, a sweep exactly when it has expired |
| VolumeAnswers.ReassemblesExactly | src/head.rs:906-963 | an array is put back on its head exactly for a mirror at rest with the head answering and a leg to use |
| VolumeAnswers.ReassembledRecord | src/head.rs:906-987 | which legs are back in it, the head's own included |
| VolumeAnswers.AssembledRecord | src/orchestrate.rs:56-98 | the record of a first assembly: two created legs at least, the first one's node the head |
| Lifecycle.RunKeepsInv | src/orchestrate.rs:372-742 | the invariant of every run: one task, one replacement, sound legs |
| LifecycleTheory.MirrorsStaySound | src/orchestrate.rs:421-841 | a mirror is degraded exactly when a leg is lost; legs and the one being built are on distinct nodes; the number of legs stays |
| LifecycleTheory.OneReplacementAtATime | src/orchestrate.rs:365-419 | one task at most; a leg is recorded only when no replacement is, and a wait ends the one on record, restarts included |
| RelegTheory.AutomaticRelegsLeaveTheHead | src/orchestrate.rs:816-904 | whatever other replacements complete, unless one puts a leg back on that node an automatic re-leg is of a lost leg, and the head is elsewhere |
| RelegTheory.HeadKeepsItsLegExactly | src/orchestrate.rs:421-451 | the head has a leg of its own throughout a run exactly when no replacement that completes takes it |
| RelegTheory.AStartServesTheHeadExactly | src/orchestrate.rs:421-451 | a replacement that begins cannot cost the head its leg exactly when the head is not on the node it leaves |
| RelegTheory.AStalePlanTakesTheHeadsLeg | src/orchestrate.rs:421-451 | the run in which a leg is put back, and a re-leg planned before takes the head's own |
| RelegTheory.SwapSpreads | src/orchestrate.rs:452-471 | legs in distinct domains stay so exactly when the target's domain is none of those that stay, which an operator's own choice does not have to meet |
| RelegTheory.DomainsStayApartExactly | src/orchestrate.rs:332-361 | at one rung the legs are in distinct domains throughout a run exactly when each replacement that completes puts its leg apart |
| RungTheory.LegsStayApartExactly | src/migrate.rs:238-256 | at the volume's own rung they are exactly when, besides, each new rung is taken with the legs apart at it |
| RelegTheory.AStartKeepsDomainsApartExactly | src/orchestrate.rs:452-471 | a replacement that begins cannot join two legs in a domain exactly when its target is apart from those that stay |
| RungTheory.PickedTargetsKeepDomainsApart | src/orchestrate.rs:332-361 | targets that placement picks at the volume's rung, for re-legs and rebalances, keep the legs in distinct domains in every run in which no leg moves between the pick and the start |
| RelegTheory.AStalePickJoinsDomains | src/rebalance.rs:176-186 | the run in which one does: two targets picked for the volume as it was, and two legs in one domain |
| LifecycleTheory.EpochCountsFences | src/head.rs:502-515 | the epoch is the number of successful fences |
| LifecycleTheory.OneFencePerExpectedEpoch | src/head.rs:502-515 | of the fences that expect one epoch at most one succeeds |
| LifecycleTheory.OnePromotePerFencedEpoch | src/head.rs:604-639 | at most one promote succeeds at a fenced epoch |
| LifecycleTheory.WhatMovesTheHead | src/head.rs:657-733 | after assembly the head is moved by promotes and by assemblies that no longer applied, and by nothing else |
| LifecycleTheory.OnlyPromotesMoveTheHead | src/head.rs:657-733 | with assemblies that look again, by promotes alone: aborted and expired windows leave it |
| LifecycleTheory.OnlyPromotesMoveTheHeadExactly | src/orchestrate.rs:56-98 | in a run nothing but promotes moves the head exactly when no late assembly finds it off the first leg's node |
| LifecycleTheory.AStaleAssemblyMovesTheHead | src/orchestrate.rs:56-98 | from a volume's creation on, a run in which a late assembly moves the head |
| LifecycleTheory.CommitsFollowNoOtherFence | src/head.rs:1337-1372 | where a commit's close, fence and promote all succeed, no other fence did since the window was last opened |
| Backup.BackupRecord.Run | src/backup.rs:77-114 | one reconciler step: at most one thing is done, and a failure is put off an interval |
| Backup.BackupRecord.Step | src/backup.rs:151-334 | node, volume, attach, expand, job, ship, in this order |
| BackupAnswers.FailsExactly | src/backup.rs:151-334 | which steps fail |
| BackupAnswers.PreparesInOrder | src/backup.rs:151-224 | node, volume, attach and size, each only once the one before is there |
| BackupAnswers.ShipsExactly | src/backup.rs:226-334 | when a ship begins, ends and is dropped, of what, and what is the next base |
| BackupAnswers.ShipsTheChanges | src/backup.rs:291-300 | a ship is to copy exactly what was written since the base, or everything at first |
| BackupAnswers.MovedShip | src/backup.rs:226-238 | a ship the array moved away from is taken off the record and a new one is due at once |
| BackupAnswers.CopyBrings | src/backup.rs:239-256 | what is copied is the snapshot's, and that much less is left |
| BackupAnswers.NextIs | src/backup.rs:95-107 | when the next step is due, and the state on record |
| Backup.BackupRecord.Finish | src/backup.rs:339-392 | the point is added, older ones and the old base go, the snapshot is the next base |
| BackupAnswers.PointsInOrder | src/backup.rs:359-375 | the points that stay keep their order, the new one last |
| BackupTheory.PointsAreTheirSnapshots | src/backup.rs:226-392 | in every run each point is the volume as it was at its snapshot, and the backup volume differs from the base only on extents written up to the snapshot last tried |
| BackupTheory.DoneIsTheSnapshot | src/backup.rs:257-268 | when a ship is done the backup volume is its snapshot, whatever failed before |
| BackupTheory.PruneDropsTheOldest | src/backup.rs:67-72 | a point is dropped exactly when `keep` others, one at least, are younger |
| BackupTheory.PointsLeft | src/backup.rs:359-375 | a finished ship leaves the newest points and those that would not be deleted |
| BackupTheory.ShipsStayInside | src/backup.rs:214-224 | in every run the size a ship begins with fits the backup volume from then on |
| StateFile.StateDir.Save | src/model.rs:608-639 | a save is these steps in this order; a call that errs ends it and only an unfinished file is removed |
| StateFileAnswers.SaveLeaves | src/model.rs:608-639 | a save that succeeds leaves its state, the one before as the previous copy where that was linked and renamed, and no file of its own; in a directory it is all a cut can leave |
| StateFileAnswers.UnwrittenSaveLeaves | src/model.rs:608-626 | one that ends before its file is whole changes nothing and takes the file away |
| StateFileAnswers.UnfinishedSaveLeaves | src/model.rs:627-639 | one that ends at the rename leaves the state as it was; at the directory's sync it is replaced, and the save has not returned |
| StateFileAnswers.SlotsAreFree | src/model.rs:608-615 | in every state the runs reach a save that begins writes a file no lasting name stands for |
| StateFileAnswers.LinkGoesExactly | src/model.rs:627-634 | the link made of the state is gone after its rename but where the previous copy was that file already |
| StateFile.StateDir.Load | src/model.rs:699-736 | at a start after a cut and at one without, the state, else its previous copy, else an empty one; a bad state is set aside |
| StateFileAnswers.LoadsExactly | src/model.rs:699-736 | the state exactly when it is whole, else the previous copy exactly when that is |
| StateFileAnswers.StartLeaves | src/model.rs:699-736 | a bad state is moved under its stamp, and nothing else changes |
| StateFileTheory.EveryCutLeavesAState | src/model.rs:608-639 | from any disk, a state that does not parse included: after a cut at any moment of any saves and starts a start reads the last state whose rename the cut kept; where it kept none and no step cost the previous copy, what a start read at first |
| StateFileTheory.ThePreviousIsKeptExactly | src/model.rs:627-634 | until a save is renamed over the state every start reads what one read at first, exactly when no save links a bad state over the good previous copy |
| StateFileTheory.ReturnedSavesSurvive | src/model.rs:634-638 | from any disk, once a save returned, every later start reads its state or one renamed after it |
| StateFileTheory.ReturnedSavesSurviveExactly | src/model.rs:610-637 | that holds of every run, cut and save exactly when the path has a directory part |
| StateFileTheory.NoSupersededState | src/model.rs:608-639 | a state whose save returned before another began is not read again once that other returned |
| StateFileTheory.RecoveryRepeats | src/model.rs:699-736 | starts one after another, with cuts in between and whatever they set aside, all read what the first did |
| StateFileTheory.ABareNameCanLoseASave | src/model.rs:610-637 | from every disk without a directory part in the path, a run and a cut that lose a save that returned |
| StateFileTheory.AStuckBadStateCostsThePrevious | src/model.rs:627-634 | from every disk with a bad state that was not set aside and a good previous copy, a save that replaces the copy before it is done |
| StateFileTheory.AFirstStartIsSafeExactly | src/model.rs:699-736 | after a first start no run costs what it read, exactly when it read no bad state over a good previous copy |
| StateFileTheory.AStartIsSafeExactly | src/model.rs:699-736 | where every later start sets a bad state aside, no run does exactly when the first one set it aside too or there was no good previous copy |
| VmMigration.Migration.ApplyReading | src/vmmigrate.rs:232-266 | what a reading of the mirror does to the record, and in which states it does nothing |
| VmAnswers.ReadingDecides | src/vmmigrate.rs:232-266 | a mirroring record is synced, copying or failed exactly by the target and the state that were read; no other record changes |
| VmAnswers.SyncedWasRead | src/vmmigrate.rs:232-266 | in every run a synced record's last reading was in sync and of its own mirror |
| VmMigration.Migration.Advance | src/vmmigrate.rs:289-367 | the starting steps not yet recorded, each recorded before the next, from wherever it stopped |
| VmAnswers.StartRecords | src/vmmigrate.rs:289-367 | what is on record after a start, by how far it got: T's volume, its place, its attach, S's mirror |
| VmAnswers.StartedIsRead | src/vmmigrate.rs:340-367 | a start that got all the way is synced, copying or failed by the mirror it found or made |
| VmAnswers.StartFails | src/vmmigrate.rs:631-640 | a start that stops short is failed, and only that |
| VmMigration.Migration.Cutover | src/vmmigrate.rs:415-487 | cut over only from synced, after a stop that answered synced and flushed |
| VmAnswers.CutsOverExactly | src/vmmigrate.rs:415-487 | cut over exactly from a mirror synced on record, or in sync when read live, that a stop found synced and flushed |
| VmAnswers.WithdrawsExactly | src/vmmigrate.rs:398-409 | S's attach of T is withdrawn only once the disk is T's own |
| VmMigration.Migration.Complete | src/vmmigrate.rs:490-521 | S's volume is deleted and the migration completed |
| VmAnswers.CompletesExactly | src/vmmigrate.rs:490-521 | completed exactly from cut over with S up and its volume deleted; when that volume goes |
| VmMigration.Migration.Abandon | src/vmmigrate.rs:526-596 | T's volume is deleted; what fails leaves the abort to be finished |
| VmAnswers.AbortsExactly | src/vmmigrate.rs:526-596 | when T's volume goes, and what marks an abort that is not done |
| VmMigration.Migration.Retry | src/vmmigrate.rs:600-628 | only a failed migration starts again |
| VmAnswers.RetriesExactly | src/vmmigrate.rs:600-628 | which failed migrations may be tried again, by what S's mirror is |
| VmAnswers.RetriedRecord | src/vmmigrate.rs:600-628 | a retry starts again on what is on record of T |
| VmMigration.TheDiskIsNeverLost | src/vmmigrate.rs:289-628 | in runs in which no retire dies once it deleted S's volume, that exists until completed; then T's does, and it was cut over by an exact switch |
| VmMigration.SourceIsKeptExactly | src/vmmigrate.rs:500-518 | from a first start, S's volume is there at every point before completed exactly when no retire dies so |
| VmMigration.OnlyExactCopies | src/vmmigrate.rs:415-487 | in every run, crashes included, a migration that is cut over or completed had an exact switch |
| VmMigration.TheDiskIsLostExactly | src/vmmigrate.rs:500-555 | neither node holds the disk at some point exactly when a retire died so and an abort deleted T's volume after it |
| VmMigration.TerminalStatesAreKept | src/vmmigrate.rs:490-555 | completed and aborted migrations stay so |
| VmMigration.AbortingExcludesTheRest | src/vmmigrate.rs:526-555 | once an abort begins nothing is cut over, completed or tried again |
| VmMigration.ACrashWhileRetiringCanLoseTheDisk | src/vmmigrate.rs:500-518 | from a first start, the run in which a crash and an abort leave no copy |
| Expand.Volume.Expand | src/expand.rs:119-255 | one try: legs, array, served volume, then the size |
| ExpandAnswers.CompletesExactly | src/expand.rs:119-255 | the size is recorded exactly when legs, array and served volume have it and said so |
| ExpandAnswers.LegsAfter | src/expand.rs:160-182 | which legs are grown, and to what |
| ExpandAnswers.ArrayAfter | src/expand.rs:183-230 | the array takes the room of the least leg exactly when it was asked and grew |
| ExpandAnswers.ExpansionAfter | src/expand.rs:119-230 | what stays on record of an expand that is not over |
| ExpandAnswers.RelegAfter | src/model.rs:429-434 | a leg made during an expand has the larger of the two sizes |
| Expand.SizeNeverExceedsALeg | src/expand.rs:119-255 | in every run the size on record is at most every leg's, legs replaced mid-expand included |
| Expand.SizeMovesLast | src/expand.rs:183-254 | the size moves only when legs, array and served volume have it, in runs that raise no target once the array has grown |
| Expand.ARaiseIsSafeExactly | src/expand.rs:191-224 | a raise meets that condition exactly when no answers of the engines can make the try record a size something under it does not have |
| TierMigration.NextStep | src/migrate.rs:39-66 | exactly when a migration is done, waits or is held; else the first leg to move goes to the best node that may take it |
| TierAnswers.RestsExactly | src/migrate.rs:39-56 | when it is done, waits for the head's leg or for a leg to be created, by the volume's fields |
| TierAnswers.MovesExactly | src/migrate.rs:43-66 | the leg that goes and the node it goes to: answering, in the pool, with room and without a leg, in a domain apart, the best such |
| TierAnswers.ChosenAmong | src/migrate.rs:57-65 | the best is chosen among exactly the nodes that take the leg |
| TierMigration.Tier.Start | src/migrate.rs:78-145 | a migration starts exactly for a whole mirror at rest with a leg outside a pool that can hold it |
| TierAnswers.FeasibleExactly | src/migrate.rs:113-134 | a pool can hold a volume exactly when that many answering nodes of it with room lie in distinct domains |
| TierMigration.Tier.Record | src/migrate.rs:213-275 | what a step leaves on the record |
| TierTheory.RoomMeansATarget | src/migrate.rs:113-134 | a migration that could start is held for want of a node only where room that was there has gone from a node without a leg of the volume |
| TierTheory.MovesCount | src/migrate.rs:191-276 | over rounds of steps, with losses, promotes and failed moves in between and no leg moved or re-legged from outside, each move that completes leaves one leg less outside the pool |
| TierTheory.MovedLegsStay | src/migrate.rs:43-66 | a leg that moved is in the pool in a domain of its own, and stays so while only the migration moves legs |
| TierTheory.DoneSpreadsExactly | src/migrate.rs:238-256 | when it is done the legs are in distinct domains at the pool's rung exactly when those were that were in the pool at first |
| RungTheory.ATierMoveKeepsDomainsApartExactly | src/migrate.rs:57-65 | a proposed move is apart at the pool's rung, and harmless at the volume's exactly when its target is apart there too |
| RungTheory.ProposedIsAPick | src/migrate.rs:57-65 | what a step proposes is a pick of a pool node at the pool's rung, for a leg outside it |
| RungTheory.TierPicksKeepDomainsApartExactly | src/migrate.rs:57-65 | such picks keep the legs of every volume apart at the volume's rung exactly when nodes of the pool share domains at it only with nodes they share one with at the pool's |
| RungTheory.ATierMoveJoinsDomains | src/migrate.rs:57-65 | a run from creation, with a start granted and the step's own proposal, that leaves two legs in one rack and waits there |
| RungTheory.ADoneMigrationJoinsDomains | src/migrate.rs:238-256 | a run of a migration that is done with two legs in one domain at the new rung |
| TierTheory.MigrationEnds | src/migrate.rs:191-276 | where that room stays, legs are created and moves complete, a round is done or waits for the head's own leg after no more moves than legs were outside |
| TierTheory.MovesThenEnds | src/migrate.rs:39-66 | while the head stays, exactly as many rounds move as legs were to move, and every later one is done or waits |
| TierTheory.NoneLeftEnds | src/migrate.rs:43-55 | none is left to move exactly when the step is done or waits for the head's own leg |

## Left out

How the model reads the source:

- Engines are state behind atomic calls. An error means the call did not take effect, except in `FleetStore` and `Expand`, where answers are lost.
- The operations that clone a volume, await engines and write the clone back (src/orchestrate.rs:56-98, src/head.rs:657-770, src/head.rs:906-987) are one step each.
- A crash between a change of a volume's record and its save is not modelled in `Lifecycle`; a restart there loses the tasks and keeps the record.
- JSON is an opaque codec that reads back what it wrote. The five maps of named records are one map by kind and name.
- Scores, used fractions and watermarks are reals; rounding and NaN are not modelled. Sizes and epochs are unbounded.
- Times are abstract and do not go back in a backup's run. Message texts are shortened.
- The nodes' labels and a pool's members do not change during a run of `RelegTheory`, `RungTheory` or `TierTheory`; legs on nodes that are not registered have no domain, as in the source.
- The guards that pick volumes for head rejoins and reassembly (src/orchestrate.rs:972-992, src/orchestrate.rs:1166-1186) are left out: runs of `Lifecycle` take these steps at any time.
- The engine epochs of fenced legs, exports, drives and orphans are not on the modelled record.
- An array has the room of its smallest leg; superblock overhead is not subtracted.
- The directory reaches the disk in order, and a file that was synced keeps its content.
- An instance of the fleet store that restarts is a new one.

Members that state less than one could wish:

- RebalanceTheory.TargetsStayUnderHighExactly: gives the guard with the right bytes as its condition, which for the last move onto a node is the bound itself.
- RebalanceTheory.PassesEnd: is about one pool whose usage only these moves change; what several pools promise to a node they share is not added up in the source.
- FleetStore.WrittenIsTheStore: leaves out keys the instance cannot be sure of, because for those the two can differ.
- BackupTheory.PointsAreTheirSnapshots: assumes that an engine ships exactly the extents written since the base, any of them when it fails, and that a ship that is given up stops.
- RebalanceTheory.PassLowersExcess: is for passes whose targets stay under the watermark, because one that moves a volume being expanded can raise the excess.
- TierTheory.MovesCount: is for runs in which only the migration moves legs, because a lost leg of a migrating volume is re-legged at the volume's rung, outside the pool too (src/orchestrate.rs:762-841).
- TierTheory.MovedLegsStay: assumes the same, because a re-leg may take a moved leg out of the pool.
- TierTheory.DoneSpreadsExactly: assumes the same.
- TierTheory.MigrationEnds: assumes the same, and asks that room stays on the nodes without a leg of the volume, because other volumes may take it and the migration is then held.
- TierTheory.RoomMeansATarget: counts a leg at the volume's size as the source does; a leg made during an expand is larger.
- Superblocks.InSyncExactlyOnEvidence: excludes a leg whose drive URI is the empty string, which no attach returns.

Not modelled:

- HTTP clients, TLS, tokens and parsing (`src/engine.rs`, `src/kube.rs`, `src/config.rs`, `src/registry.rs`, `src/api`).
- Export publication, consumer hosts, secrets, recreating a served volume that is gone.
- The published address of the fleet store and the Kubernetes objects around it.
- API calls that edit backup points while a step is in flight, and a first start of a disk migration that fails and removes its record.
- A ship that still runs on a former head after a promote.
- Which places on a node a disk migration may name, and a clone's limit to its parent's size in an expand.
- `src/replicate.rs`: some writes of a record do not move the revision, so it does not tell which state is newer.
- The interface, events, logging, inventory and refusal texts: no hard property.
