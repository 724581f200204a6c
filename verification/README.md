# A verified model of the TrueNAS CSI driver's protocols

This project models, in Dafny, the parts of the driver where a wrong step loses data or lets two
writers in: replication groups, the publish ledger, delete protection, group snapshots, pod fencing,
and credential reload; and three algorithms, the edit distance behind parameter suggestions, token
pagination, and the calendar arithmetic and timestamp parsing delete protection relies on.

An appliance is a value: maps of datasets, snapshots, tasks and grants. Any call to an appliance, to
the store or to Kubernetes may fail, and a write that fails may still have landed. Where the driver
changes things step by step the model is a class whose methods do the same, with `modifies` and loop
invariants; a class has a constant `reliable`, and its contracts say what happens when no call fails
as well as what every failure leaves behind. Where the driver only decides, the model is functions.

| file | what it models |
|---|---|
| `Volume.dfy` | volume handles, confinement to the parent dataset, proof of ownership, string order |
| `Replication.dfy` | both appliances, the stored state, and for each group operation the writes it makes |
| `Lifecycle.dfy`, `Transfers.dfy` | whole histories of a group: when targets are promoted, and what is stopped then |
| `Rehearsals.dfy` | the guard of a test failover, and what a start and a stop leave |
| `Outcomes.dfy`, `Destruction.dfy` | divergence, what success of each operation means, what is named to be destroyed and what goes |
| `Roundtrips.dfy` | when each operation succeeds, the order within them, what a rehearsal exposes, and a failover undone |
| `Manager.dfy` | the manager's methods, each making a first part of its operation's writes |
| `Publish.dfy`, `Controller.dfy` | publish and unpublish calls interleaving over one volume; the calls themselves |
| `Timestamps.dfy`, `Graveyard.dfy` | instants, their spellings, graveyard names, and when a dataset may be reaped |
| `Retirement.dfy`, `Reaping.dfy`, `Bystanders.dfy`, `Retire.dfy` | a pool with inherited properties; every interleaving of retiring, sweeping and others; datasets others put in the graveyard; the code |
| `Groups.dfy` | creating, trimming and deleting group snapshots |
| `Connectivity.dfy`, `Fencing.dfy` | the verdict on a node, and the fencing of its pods |
| `Suggestions.dfy`, `Pages.dfy`, `Reload.dfy` | edit distance and suggestions; listing in pages; hot reload |

An operation of a replication group is given by its *script*: the writes it makes when none fails, in
order, from the world it starts in. A history is a sequence of steps, each an operation with the
number of its writes that landed, so it covers failures and crashes between any two writes. `Manager`
connects the methods to the scripts.

Where code and its documentation disagree the model follows the code:

- `internal/retention/policy.go:14-15` and `docs/delete-protection.md` say a rename is never forced; `renameWhenReleased` always forces it.
- `docs/delete-protection.md` says the ownership marker is not stamped again after the rename; `Retire` re-stamps the owner id, and reaping depends on it (`StoppedIsReapable`).
- `internal/retention/retire.go:74-79` says a dataset whose stamping failed is never reaped; once the owner id has landed it is, by the instant in its name.

Properties that do not hold in full are stated with the exact condition under which they do:

- Two nodes can be served at once after a ledger save is lost (`LostSaveLetsTwoIn`), and an unpublish of every node can then succeed with one still served (`LostSaveOutlivesUnpublish`); `TwoNextIff` and `UnpublishAllIff` are the exact conditions, and `LosesTrackIff` says which steps bring it about.
- Deleting a group's targets takes foreign datasets beneath them (`DeleteTakesForeign`), and a rehearsal stamps and then destroys a foreign dataset lying where a clone belongs (`RehearsalTakesForeign`); `DeleteOwnedIff` and `RehearsalOwnedIff` are the exact conditions.
- A rehearsal can record another snapshot than the one it exposes, when a clone was left from a start that stopped (`StaleCloneMisrecorded`); `RecordedIsShownIff` is the exact condition.
- A reaper takes what has been put in an entry's place since it was listed (`ReplacedEntryGoes`; `UnchangedEntryGoes` says when it takes what it listed), and it can take a dataset somebody dropped into the graveyard (`PlainEntryReaped`); `PlainNeverOwnedIff` is the exact condition for that.
- A volume that still carries an earlier deletion timestamp can be reaped by that one (`StaleTimestampCounts`, and `SweptWereRetired` for whole histories), and a volume and a graveyard that both predate the owner id need no stamp (`UnmarkedNeedsNoStamp`); `StoppedIsReapable` is the exact condition.
- A configuration holding a NaN can be replaced by nothing (`ReloadableReflexiveIff`), and an appliance filed under another name than its own can present its old credential or another's (`MisfiledStaysStale`, `MisfiledTakesOther`); `PresentsIff` is the exact condition.
- A lapsed NFS lease listed before a live one of the same node hides it (`LapsedHidesLive`); `SafeIff` says what a safe report means in terms of the first client listed.

## Model

| member | source | states |
|---|---|---|
| `Volume.ConfinedIsUnderParent` | internal/volume/confine.go:21-64 | a handle that passes the component checks names a path that cleaning leaves as it is, beneath the cleaned parent, so the final comparison refuses nothing more |
| `Volume.ConfineIff` | internal/volume/confine.go:21-64 | a handle is confined exactly when it names the configured pool and parent and every part of it, of which only the namespace may be missing, holds no separator and is left in its place by cleaning |
| `Volume.Stamped` | internal/volume/ownership.go:110-119 | a dataset stamped at creation passes VerifyOwned for its own path, and carries the two stamps and otherwise exactly what it did |
| `Replication.InsertOrdered` | internal/replication/calls.go:199-210 | inserting a snapshot into an ordered listing keeps createtxg order and every snapshot |
| `Replication.ShortNameIff` | internal/replication/calls.go:268-275 | the short name of an id is exactly the text without a separator that follows one in it, or the id itself when it has none |
| `Replication.ShortNameOfSnapshot` | internal/replication/calls.go:268-275 | a snapshot of any dataset, on either appliance, has its own name as its short name, and an id without a separator is its own |
| `Replication.LatestIsNewest` | internal/replication/calls.go:198-222 | a dataset has a latest snapshot exactly when it has any, and nothing the appliance lists is newer, whatever order it lists them in |
| `Scripts.FailoverWrites` | internal/replication/manager.go:446-531 | the first write of a failover records it; every state it stores is a locked one; unforced, it writes only from an unlocked phase other than FailingBack; it destroys nothing |
| `Scripts.FailbackWrites` | internal/replication/manager.go:720-819 | a failback first stores FailingBack, stores nothing but that and Ready, promotes and destroys nothing, and unforced starts only from FailedOver |
| `Scripts.CreateWrites` | internal/replication/manager.go:211-321 | repeated Create calls never take a group out of a failover phase and destroy nothing |
| `Scripts.SetSuspended` | internal/replication/manager.go:846-871 | Suspend and Resume are refused, without a write, while a failover is in progress or done |
| `Scripts.TestFailoverWrites` | internal/replication/manager.go:574-638 | starting a rehearsal keeps a failover phase as it is and destroys nothing |
| `Scripts.StopTestFailover` | internal/replication/manager.go:641-671 | stopping a rehearsal keeps a failover phase as it is |
| `Scripts.Delete` | internal/replication/manager.go:346-410 | deleting a group promotes nothing, and writes nothing at all while a rehearsal runs or, when the targets are to go too, when one of them is foreign |
| `Lifecycle.PromotionLocks` | internal/replication/manager.go:446-531 | an unforced step that promotes a target started unlocked and leaves the stored phase locked, wherever it stopped |
| `Lifecycle.LockHolds` | internal/replication/manager.go:446-482 | a locked group stays locked and promotes nothing in any unforced step that stores no FailingBack and is not a Delete that finished |
| `Lifecycle.UnfinishedDelete` | internal/replication/manager.go:346-410 | a Delete that does not reach its final save leaves what is stored and promotes nothing |
| `Lifecycle.FailingOverStays` | internal/replication/manager.go:446-531 | FailingOver is left by no later unforced operation but a Delete that finished, and nothing is promoted meanwhile |
| `Lifecycle.PromotionsSeparated` | internal/replication/manager.go:446-531 | in every unforced history, two steps that promote targets have between them one that stored FailingBack, or a Delete that stored its final state, with any write of any step failing |
| `Transfers.InvAlways` | internal/replication/manager.go:536-565 | the invariant tying the stored phase to the source's tasks, marks and rehearsal record holds after every unforced, Delete-free history from a clean start |
| `Transfers.PromotionsWhileHalted` | internal/replication/manager.go:484-531 | every write that promotes a target happens while the source's forward task and every member's snapshot task are disabled |
| `Transfers.FailedOverIsHalted` | internal/replication/manager.go:211-321 | at every point of such a history where FailedOver is stored, those tasks are still disabled and every member has its mark, across repeated Create calls too |
| `Rehearsals.GuardConfines` | internal/replication/guard.go:33-81 | whatever calls pass the guard, in any order, change no dataset or snapshot outside the scratch tree, nothing on the source, and no task |
| `Rehearsals.StartNeverRefused` | internal/replication/manager.go:574-638 | the guard lets through every write a test failover makes to start |
| `Rehearsals.StopNeverRefused` | internal/replication/manager.go:641-671 | the guard lets through every write made to stop, given what a start records |
| `Rehearsals.RecordedAlways` | internal/replication/manager.go:574-671 | no operation ever records a rehearsal outside the group's own scratch tree |
| `Rehearsals.RehearsalsConfined` | internal/replication/manager.go:574-671 | in every history, forced operations and Delete included, a start or a stop, complete or not, changes nothing outside the scratch tree and no task on either appliance |
| `Rehearsals.StartThenStopRestores` | internal/replication/manager.go:574-671 | where there was no scratch tree, a successful start followed by a stop succeeds and gives back both appliances and the stored state exactly |
| `Divergence.DivergedIff` | internal/replication/manager.go:675-711 | nothing has diverged if and only if every member has a mark, it is the short name of the source's last snapshot in createtxg order, and of no other |
| `Divergence.EndsAtNewest` | internal/replication/calls.go:199-222 | being last after the sort, and the only one of that name, is being the newest in the listing as the appliance gave it, whatever its order, and the only one |
| `Divergence.ReportExact` | internal/replication/manager.go:675-711 | the report is empty exactly when nothing has diverged |
| `Divergence.ReportSays` | internal/replication/manager.go:675-711 | it names exactly the members that gained snapshots, with exactly those snapshots |
| `Divergence.GainedIsAfter` | internal/replication/manager.go:686-704 | what a member gained is the short names of the snapshots after the first that is its mark, each of them, oldest first |
| `Divergence.ReverseOnlyAtMark` | internal/replication/manager.go:725-799 | an unforced failback runs the reverse task if and only if the group is failed over, no rehearsal runs and every member is at its mark; otherwise it writes nothing |
| `Outcomes.FailoverAchieves` | internal/replication/manager.go:446-531 | success, forced or not, leaves the source's data untouched and, unforced, its stream and its members' schedules stopped and nothing else changed there; exactly the members' targets writable and free of their origins; and the mark of each member whose target has a snapshot at the newest, every other mark as it was |
| `Outcomes.FailbackAchieves` | internal/replication/manager.go:720-819 | success, forced or not, leaves the group Ready with no marks, exactly the members made writable on the source and exactly its stream and their schedules enabled, no reverse task, and the target otherwise untouched |
| `Outcomes.SuspendSettles` | internal/replication/manager.go:846-871 | success leaves the forward task as asked, and asking again makes no write to an appliance |
| `Outcomes.CreateSettles` | internal/replication/manager.go:211-337 | success leaves every member scheduled and with a snapshot called the baseline, the stream present and run if and only if it is new, the group recorded as suspended exactly when the stream is off, the target untouched; and a second Create writes nothing but the same state |
| `Outcomes.DestroysOnlyOwned` | internal/replication/guard.go:118-147 | every dataset any operation names to be destroyed, forced or not, carried the driver's marker for that very path at that moment |
| `Destruction.VanishedIff` | internal/replication/calls.go:256-262 | wherever an operation stops, what is gone from the target is exactly what was at or beneath a dataset it named, and nothing is gone from the source |
| `Destruction.VanishedUnderOwned` | internal/replication/guard.go:135-147 | whatever disappears lay at or beneath a dataset that carried the driver's own marker when the operation began |
| `Destruction.EverTakesIff` | internal/replication/calls.go:256-262 | what an operation may take, wherever it stops, is exactly what is there at or beneath a dataset its script names |
| `Destruction.DeleteOwnedIff` | internal/replication/manager.go:346-410 | Delete destroys nothing but the driver's own, wherever it stops, if and only if a rehearsal runs, the targets are to stay, one of them is foreign, or everything at or beneath an existing target is the driver's |
| `Destruction.DeleteTakesForeign` | internal/replication/manager.go:402-408 | deleting a group with its targets takes a dataset somebody else made beneath a target |
| `Destruction.RehearsalOwnedIff` | internal/replication/manager.go:574-671 | a completed start and a stop, wherever cut short, destroy nothing but what was the driver's or what they made, if and only if all that lay at or beneath a clone's place was the driver's, and so was all in the scratch tree when its root was absent or the driver's |
| `Destruction.RehearsalTakesForeign` | internal/replication/manager.go:617-631 | a foreign dataset lying where a clone belongs is stamped by the start, and the stop destroys it |
| `Destruction.DeleteAchieves` | internal/replication/manager.go:346-410 | Delete succeeds exactly when no rehearsal runs and, if the targets are to go, none is foreign; it leaves none of the group's tasks, the source's data as it was, and no target, or the target appliance untouched |
| `Destruction.DeleteUntasksFirst` | internal/replication/manager.go:382-408 | when Delete names a target to be destroyed, neither the group's stream nor any member's schedule is left on the source |
| `RoundTrips.FailoverSucceedsIff` | internal/replication/manager.go:446-531 | a failover succeeds exactly when it is done already, or it is not refused, the stream is there to be stopped, and every target is owned and has a snapshot; force does without stream and snapshots |
| `RoundTrips.FailbackSucceedsIff` | internal/replication/manager.go:720-819 | a failback succeeds exactly when the source is primary already, or the group is failed over with no rehearsal and every member at its mark, and the stream is there to be restarted; force does without the marks and takes up a failback that stopped |
| `RoundTrips.TestSucceedsIff` | internal/replication/manager.go:574-638 | a rehearsal starts exactly when one runs already or every target has a snapshot |
| `RoundTrips.SuspendSucceedsIff` | internal/replication/manager.go:846-871 | Suspend and Resume succeed exactly when no failover has begun and the stream is there |
| `RoundTrips.CreateSucceedsIff` | internal/replication/manager.go:170-214 | Create succeeds exactly for a group with members, all of the source, confined, owned and of different names |
| `RoundTrips.RunsExist` | internal/replication/manager.go:797-799 | whatever operation runs a replication task, forced or not and however far it gets, that task is on that appliance at that moment |
| `RoundTrips.BaselinesBeforeRun` | internal/replication/manager.go:235-309 | a new stream is first run when every member is scheduled and has its baseline |
| `RoundTrips.RunsBeforeReopening` | internal/replication/manager.go:765-819 | a failback, forced or not and however far it gets, makes the source writable, restarts its stream or records it as primary only after the reverse run, and with the reverse task gone |
| `RoundTrips.RehearsalShows` | internal/replication/manager.go:606-634 | a rehearsal that starts records for each volume its clone and the name of a snapshot than which its target lists none newer; where the clone's place was free, that snapshot is what it exposes, and otherwise what was there stays what it was |
| `RoundTrips.StaleCloneMisrecorded` | internal/replication/manager.go:617-634 | a clone left by a start that stopped is kept, and the snapshot recorded for it is a newer one |
| `RoundTrips.RecordedIsShownIff` | internal/replication/manager.go:617-634 | what is recorded is what is exposed if and only if the clone's place was free or already held a clone of a snapshot called as the target's newest |
| `RoundTrips.FailsBackAfter` | internal/replication/manager.go:675-758 | at any time after a failover that succeeded at which its record stands, whatever the target has gained, an unforced failback goes ahead if each member's newest snapshot on the source, the only one of its name there, is called as the newest on its target was; and, where no two snapshots have one createtxg, only if |
| `RoundTrips.OverAndBack` | internal/replication/manager.go:446-819 | a failover and a failback of a group in service, level with its target, put the source and the stored state back exactly as they were; on the target the members stay writable and nothing else has changed but a reverse task left from before |
| `RoundTrips.AgainWritesNothing` | internal/replication/manager.go:452-671 | a failover, a failback, and the start or stop of a rehearsal, asked for again after success, forced or not, succeeds without a single write |
| `Manager.GroupManager.VerifyMembership` | internal/replication/manager.go:170-203 | success means there are members, all of the source appliance, confined, with datasets that exist and are owned, and no two of one name; with no failed call it is exactly that |
| `Manager.GroupManager.CreateNow` | internal/replication/manager.go:211-321 | makes a first part of Create's script; success means all of it, and with no failed call it is the script |
| `Manager.GroupManager.DeleteNow` | internal/replication/manager.go:346-410 | the same of Delete |
| `Manager.GroupManager.FailoverNow` | internal/replication/manager.go:446-531 | the same of Failover, forced or not |
| `Manager.GroupManager.SetTransfersNow` | internal/replication/manager.go:536-565 | the same of stopping and starting the source's tasks |
| `Manager.GroupManager.PromoteNow` | internal/replication/manager.go:495-524 | the same of the promotion pass, and on success the marks are the script's |
| `Manager.GroupManager.TestFailoverNow` | internal/replication/manager.go:574-638 | the same of TestFailover, through the guard |
| `Manager.GroupManager.StopTestFailoverNow` | internal/replication/manager.go:641-671 | the same of StopTestFailover, over the recorded clones in sorted order |
| `Manager.GroupManager.DivergenceNow` | internal/replication/manager.go:675-711 | computes the divergence report, or fails when a listing does |
| `Manager.GroupManager.FailbackNow` | internal/replication/manager.go:720-819 | makes a first part of Failback's script, all of it on success, forced or not |
| `Manager.GroupManager.SetSuspendedNow` | internal/replication/manager.go:846-871 | the same of Suspend and Resume |
| `Manager.GroupManager.GuardedWrite` | internal/replication/guard.go:33-70 | a call the guard does not permit never reaches the appliance |
| `Manager.GroupManager.DropAll` | internal/replication/guard.go:135-147 | destroys the listed datasets in turn, each only when owned, and stops at the first refusal |
| `Manager.GainedSince` | internal/replication/manager.go:686-704 | the snapshots after the mark, in order, or a note that the mark is gone from the source |
| `Manager.SnapshotShortName` | internal/replication/calls.go:268-275 | scanning from the end finds the short name |
| `Locks.VolumeLocks.TryAcquire` | internal/csi/locks.go:21-33 | takes a lock exactly when nobody holds it and changes nothing otherwise |
| `Locks.VolumeLocks.Release` | internal/csi/locks.go:21-33 | gives up that lock and no other |
| `AccessModes.SupportsIff` | internal/csi/accessmode.go:44-82 | every protocol serves the four single-node modes, nfs and smb the three multi-node modes as well, and none the unknown one; a mode counts as single-node exactly when it is one of the four |
| `Publish.InvAlways` | internal/csi/controller.go:610-738 | the lock, ledger and access invariant holds through every interleaving of calls, failures, crashes and fencing on a volume of any protocol but nfs and smb |
| `Publish.LedgerNamesOne` | internal/csi/controller.go:610-662 | the ledger of a volume of any protocol but nfs and smb never names two nodes |
| `Publish.AccessAccounted` | internal/csi/controller.go:610-738 | every node the appliance serves is in the ledger, is the lock holder's own, or had its grant go unrecorded |
| `Publish.TrackedIsOne` | internal/csi/controller.go:610-738 | in every reachable state in which each node served is in the ledger or the lock holder's own, at most one is served |
| `Publish.OneNodeServed` | internal/csi/controller.go:610-738 | through every history in which no step gives up on recording a grant, at most one node is served, fencing interleaved or not |
| `Publish.LosesTrackIff` | internal/csi/controller.go:640-662 | a step gives up on recording a grant exactly when a grant fails having landed, the save after a grant fails without landing, or the controller dies between the two |
| `Publish.TwoNextIff` | internal/csi/controller.go:610-662 | whenever the lock is free, the next publish can leave two nodes served if and only if two are already, or one is that the ledger does not name and the ledger does not name the empty node |
| `Publish.LostSaveLetsTwoIn` | internal/csi/controller.go:640-662 | with one lost save two nodes are served at once, though the ledger names one |
| `Publish.UnpublishFences` | internal/csi/controller.go:687-738 | in every history, at whatever step an unpublish comes to succeed, an empty ledger included, the node it was asked about is out of the ledger and unserved; asked about none, the ledger is empty and only unrecorded nodes are served |
| `Publish.UnpublishAllIff` | internal/csi/controller.go:672-739 | an unpublish of every node leaves nobody served if and only if every node served was in the ledger |
| `Publish.LostSaveOutlivesUnpublish` | internal/csi/controller.go:670-713 | after a lost save, an unpublish of every node succeeds while that node is still served |
| `Publish.PublishPath` | internal/csi/controller.go:610-662 | the exact effect of one publish on its own, with its save kept or lost |
| `Publish.PublishEffect` | internal/csi/controller.go:610-662 | an undisturbed publish adds its node exactly when the ledger names no other, and otherwise changes no access |
| `PublishController.Controller.ControllerPublishVolume` | internal/csi/controller.go:586-663 | is a path of that machine; success records and grants exactly the node, the lock is always given back, and with no failed call it succeeds exactly when the node is named, the lock is free, and the mode is one of the four single-node ones and no other node is in the ledger, or one of the three multi-node ones and the protocol nfs or smb |
| `PublishController.Controller.ControllerUnpublishVolume` | internal/csi/controller.go:672-739 | is a path of that machine; success removes exactly the node, or every node of the ledger when none is named |
| `PublishController.Union` | internal/csi/controller.go:756-769 | the merged addresses are sorted, without blanks or repeats, and exactly those of the two lists |
| `PublishController.Nodes` | internal/volume/publish.go:152-159 | lists the ledger's nodes, each once, sorted |
| `Timestamps.NextDay` | internal/retention/reap.go:113-116 | the calendar by which ages are counted numbers the day after any date one more, across months, years and leap Februaries |
| `Timestamps.StampRoundTrip` | internal/retention/retire.go:170-181 | for every instant of years 0 to 9999 the name stamp parses back to that instant to the second |
| `Timestamps.DeletedAtRoundTrip` | internal/volume/retired.go:81-99 | and so does the property |
| `Timestamps.OnlyStampsRead` | internal/retention/reap.go:122-137 | a stamp of sixteen characters is accepted only if it is the spelling of an instant, and then as that instant |
| `Timestamps.FractionReads` | internal/volume/retired.go:90-99 | a fraction after the seconds, of any number of digits, is read as the nanoseconds it spells, those past the ninth dropped |
| `Timestamps.ZoneReads` | internal/volume/retired.go:90-99 | a zone is read as its offset, ahead or behind |
| `Timestamps.TruncatedIsClose` | internal/volume/retired.go:81-83 | what is read is never later and less than a second earlier |
| `Graveyard.LiveIsOutside` | internal/retention/policy.go:105-124 | a served volume is in the graveyard exactly when its namespace is named like it; never when flat, and never for a dot-prefixed graveyard and a Kubernetes namespace |
| `Graveyard.SanitiseComponent` | internal/retention/retire.go:188-205 | the result is always one legal component, and a legal name comes back unchanged |
| `Graveyard.SanitisedKeeps` | internal/retention/retire.go:188-205 | all that is lost of a name, besides what is replaced by dashes, is dashes at its ends; if nothing usable is left it becomes "volume" |
| `Graveyard.CandidatesDistinct` | internal/retention/retire.go:217-234 | no two attempts try the same name |
| `Graveyard.EntryNameShape` | internal/retention/retire.go:161-181 | an entry's name is the stamp, a dash and the sanitised namespace and name, cut to 120 characters and never into the stamp |
| `Graveyard.CandidateReadsBack` | internal/retention/retire.go:161-234 | every candidate, sanitised, truncated or suffixed, is a direct child of the graveyard and its name reads back as the instant to the second |
| `Retirement.InheritedTimestampIgnored` | internal/retention/reap.go:98-137 | on an appliance that tells inherited from local, a dataset that sets no deletion timestamp itself was retired when its name says, whatever is set above it |
| `Reaping.InvAlways` | internal/retention/retire.go:47-111 | through every interleaving of renames, stamps, crashes, listings, destroys and what others do, no owned entry of the graveyard is read as retired earlier than it was, and what any reaper is working through was due when listed |
| `Reaping.SweptWereRetired` | internal/retention/reap.go:190-252 | over every such history, a destroy takes exactly what is at or beneath one direct child of the graveyard, listed as owned, where an earlier Retire had put a volume at least the grace period before the listing, to within a second, counted from that Retire or from an earlier timestamp the volume carried |
| `Reaping.UnchangedEntryGoes` | internal/retention/reap.go:195-232 | if nothing at, beneath or above an entry changed since it was listed, exactly what was listed there goes, and the entry is still owned and due |
| `Reaping.ReplacedEntryGoes` | internal/retention/reap.go:195-232 | otherwise, nothing being asked again between listing and destroying, what others put in a due entry's place meanwhile is destroyed |
| `Reaping.SweepSparesLive` | internal/retention/reap.go:190-252 | no destroy takes away or changes the dataset of a volume outside the graveyard |
| `Reaping.ProvisioningForgesNothing` | internal/retention/policy.go:79-124 | creating a volume where the driver creates them is among what others may do |
| `Bystanders.PlainOwnedIff` | internal/volume/ownership.go:68-100 | an entry that sets neither owner property passes for the driver's own if and only if the marker it inherits is the driver's and the owner id it inherits names it, or there is none and the appliance reports inherited as local |
| `Bystanders.PlainNeverOwnedIff` | internal/retention/reap.go:35-39 | no plain dataset dropped into the graveyard passes for the driver's own if and only if the graveyard shows no marker of the driver's, or its owner id names none of its entries, or it has none and the appliance tells inherited from local |
| `Bystanders.PlainEntryReaped` | internal/retention/retire.go:120-153 | in a graveyard without an owner id, on an appliance that reports inherited as local, a dataset without any property is reapable by the instant its name spells |
| `Bystanders.HandsOffForgesNothing` | internal/retention/reap.go:35-39 | where that condition on the owner id holds, others who leave the driver's marks alone make no entry the driver's, whatever datasets they put there |
| `Bystanders.CarefulRuns` | internal/retention/reap.go:190-252 | so every history in which others do only that is one of those `SweptWereRetired` speaks of, and the condition lasts |
| `Retiring.StoppedIsReapable` | internal/retention/retire.go:63-102 | wherever Retire stops after the rename, the dataset becomes reapable if and only if the owner-id stamp landed or no owner id was visible, and then from exactly the grace period after the instant read |
| `Retiring.StaleTimestampCounts` | internal/retention/reap.go:98-107 | a volume still carrying an earlier deletion timestamp, stopped after the owner id, is reapable by that earlier one |
| `Retiring.UnmarkedNeedsNoStamp` | internal/volume/ownership.go:80-99 | where neither volume nor graveyard has an owner id, the rename alone makes the dataset reapable in time |
| `Retiring.RetireIsRun` | internal/retention/retire.go:63-102 | every stop of a retirement is reached by a history of the machine, so what holds of all histories holds of it |
| `Retiring.SweepIsRun` | internal/retention/reap.go:190-252 | an undisturbed sweep is a history of the machine: its listing and one destroy for each request that took effect |
| `Retiring.Delays` | internal/retention/retire.go:264-284 | the delays double up to 3.2 seconds and no further |
| `Retiring.HasRootIff` | internal/retention/retire.go:120-153 | a graveyard counts as one exactly when it sets the marker itself, or inherits it on an appliance that reports inherited as local |
| `Retiring.Retirer.EnsureGraveyard` | internal/retention/retire.go:120-153 | success means the graveyard exists and is marked; a dataset there that is not marked is refused and left alone |
| `Retiring.Retirer.FreeEntry` | internal/retention/retire.go:217-234 | returns the first free candidate, a direct child of the graveyard that reads back; with no failed call it gives up only when all 32 are taken |
| `Retiring.Retirer.RenameWhenReleased` | internal/retention/retire.go:264-284 | makes 1 to 14 attempts, sleeps at most 3.2 seconds between two, and reports success only for a rename that was done; after a busy answer it gives up only when cancelled or more than 30 seconds after it began |
| `Retiring.Retirer.WriteStamps` | internal/retention/retire.go:90-102 | writes the three stamps in order and stops at the first that fails |
| `Retiring.Retirer.Retire` | internal/retention/retire.go:47-111 | touches nothing while protection is off or for an unconfined volume; otherwise leaves one of the stops, always on success, and with no failed call succeeds whenever there is room |
| `Retiring.Retirer.Sweep` | internal/retention/reap.go:190-252 | asks once for each dataset the listing shows reapable and for no other; exactly what took effect is gone, with what is beneath it; with no failed call all of them; and the list returned is exactly the confirmed ones |
| `Groups.SiblingsUntouched` | internal/backend/groupsnapshot.go:325-347 | a snapshot of a dataset that merely shares the parent's name as a prefix is no part of a group and survives its deletion |
| `Groups.GroupParent` | internal/backend/groupsnapshot.go:161-202 | a parent is found exactly when there are sources, all on one appliance beneath one parent, which is the configured dataset or a namespace of it; a differing parent is told apart from a differing appliance |
| `Groups.HandleRoundTrip` | internal/backend/snapshot.go:222-236 | a handle the driver issues reads back as the appliance, dataset and name it stands for |
| `Groups.ParseIff` | internal/backend/snapshot.go:222-236 | a handle is read as an appliance and a snapshot exactly when it is a name without a slash, a slash, and text with a separator in it |
| `Groups.SplitOf` | internal/backend/groupsnapshot.go:368-373 | splitting at the last separator undoes joining |
| `Groups.ValidateGroupMembers` | internal/backend/groupsnapshot.go:351-365 | accepts a member list exactly when every handle is one of the group's |
| `Groups.SortByLength` | internal/backend/groupsnapshot.go:312-314 | a permutation with the longest ids first |
| `Groups.AnchorLast` | internal/backend/groupsnapshot.go:312-319 | in that order nothing of the group comes after its anchor |
| `Groups.Snapshots.TrimNonMembers` | internal/backend/groupsnapshot.go:118-147 | removes exactly the group's snapshots of datasets not kept; stopped early, some of those and nothing else |
| `Groups.Snapshots.CreateGroupSnapshot` | internal/backend/groupsnapshot.go:38-97 | when the call itself creates the group, success adds exactly the anchor and the members whose datasets exist; when the group exists nothing changes; a handle returned names a snapshot that is there exactly when its dataset exists, or for a group found when the member was there; no snapshot that existed is lost however it ends |
| `Groups.Snapshots.GroupSnapshots` | internal/backend/groupsnapshot.go:325-347 | finds exactly the snapshots of that name at or under the parent, each once |
| `Groups.Snapshots.Blocked` | internal/backend/groupsnapshot.go:288-311 | finds exactly the datasets of the pool cloned from any of them |
| `Groups.Snapshots.DeleteGroupSnapshot` | internal/backend/groupsnapshot.go:265-321 | deletes nothing for a bad handle, a foreign member or a dependent clone; otherwise only the group, all of it on success, and never the anchor while a member remains, wherever it stops |
| `Groups.Snapshots.CreateThenDelete` | internal/backend/groupsnapshot.go:38-321 | a group that was not there, created and then deleted by the handles returned, leaves the snapshots there were; and with no failed call both succeed |
| `Connectivity.Verdict` | internal/podmon/connectivity.go:178-214 | safe exactly when there is no error, nothing blocks and something was seen gone; the blocking signals are exactly those that block, in order |
| `Connectivity.SafeToFence` | internal/podmon/connectivity.go:219-229 | safe exactly when there are reports and all are safe |
| `Connectivity.CheckISCSI` | internal/podmon/connectivity.go:396-420 | connected exactly when a listed session carries the node's initiator name or address; unknown with an error when there is no listing |
| `Connectivity.CheckNVMe` | internal/podmon/connectivity.go:538-573 | the same by host NQN, but a node without one is never disconnected |
| `Connectivity.CheckNFS` | internal/podmon/connectivity.go:453-488 | decided by the first client at one of the node's addresses: unknown without a lease age, connected up to the stale age, disconnected past it; disconnected when no client is at one |
| `Connectivity.Check` | internal/podmon/connectivity.go:311-378 | one report per volume, and an error instead of signals when the node cannot be told or the appliance not reached |
| `Connectivity.SafeIff` | internal/podmon/connectivity.go:178-229 | a report is safe if and only if the node is identified, the appliance answered, the protocol is one that can be observed, and no session of it, or live first lease, is the node's |
| `Connectivity.NamelessNeverSafe` | internal/podmon/connectivity.go:346-356 | a node that is not known, or has neither an address nor an initiator name, is never safe to fence |
| `Connectivity.AddingNeverSafer` | internal/podmon/connectivity.go:396-573 | appending sessions or clients, or failing to answer, never turns unsafe into safe |
| `Connectivity.MoreNeverSafer` | internal/podmon/connectivity.go:178-229 | neither does adding an error, or volumes to a request that had some |
| `Connectivity.LapsedHidesLive` | internal/podmon/connectivity.go:453-488 | the order of NFS clients matters: a lapsed lease first hides a live one |
| `Fencing.PodIsReady` | internal/fencing/controller.go:457-464 | the first Ready condition decides |
| `Fencing.NodeHasFailed` | internal/fencing/controller.go:473-488 | failed exactly by a NoExecute unreachable or not-ready taint, or a Ready condition that is not True |
| `Fencing.LegalIsEarned` | internal/fencing/controller.go:242-287 | in what handling a pod does, any taint, detach or delete comes after a safe check and the revoke of every volume, never after a failed revoke, and deletes only the pod listed |
| `Fencing.VolumesAre` | internal/fencing/controller.go:293-321 | over the cluster's own objects: the volumes of a pod are one for each claim bound to a volume of this driver whose handle parses, in the order of the claims, and no others |
| `Fencing.Controller.VolumesOf` | internal/fencing/controller.go:293-321 | those volumes, or nothing; with no failed call, nothing exactly when a claim is missing, a bound volume is missing, or a volume of this driver has a handle that does not parse |
| `Fencing.Controller.Ask` | internal/fencing/controller.go:246-250 | the check is safe only when the node is known, the appliance of every volume answered, and none shows anything of the node on it; with no failed call exactly then |
| `Fencing.Controller.Revoke` | internal/fencing/fencer.go:44-67 | success takes away exactly that node's access to that volume, a volume that is gone included |
| `Fencing.Controller.RevokeAll` | internal/fencing/controller.go:250-264 | revokes in order and stops at the first failure; on success the node reaches none of them |
| `Fencing.Controller.ForceDelete` | internal/fencing/controller.go:402-415 | whatever others did before it lands, nothing goes or the pod of that name alone does, and the pod that went had that UID, which is what the log records |
| `Fencing.Controller.CleanUp` | internal/fencing/controller.go:266-279 | taints the node if it is not tainted, detaches, and deletes no pod but this one |
| `Fencing.Controller.Handle` | internal/fencing/controller.go:198-287 | what is done is proper: legal, only for a labelled pod not ready on a failed node, about all the volumes the pod of that UID has, and past the check only when its node is gone from them all; after cleaning up the node reaches none of them; undisturbed, every stuck pod is asked about and deleted if its node is gone |
| `Fencing.Controller.Sweep` | internal/fencing/controller.go:180-194 | the log of a sweep is one proper pass per listed pod; every taint, detach or delete is justified within the pass over its own pod, all of whose volumes were found safe and revoked before it with no revoke failed; undisturbed, every stuck pod is settled |
| `Suggestions.EditDistance` | internal/csi/controller.go:1223-1241 | the two rows that change places compute the recursive Levenshtein distance |
| `Suggestions.NoneCheaper` | internal/csi/controller.go:1223-1241 | no edits that turn one string into the other cost less than that |
| `Suggestions.SomeAttain` | internal/csi/controller.go:1223-1241 | and some cost exactly that |
| `Suggestions.NearestParameter` | internal/csi/controller.go:1207-1221 | what is suggested is accepted and at a positive distance within a third of the length; unless the empty name is accepted it is the first of the nearest, and nothing is suggested only when no nearest one is in reach |
| `Pages.ListPage` | internal/csi/capacity.go:314-346 | answers a token with the page that starts at its entry in sorted order, and refuses a token that names none |
| `Pages.PageShape` | internal/csi/capacity.go:410-437 | a page is a run of the listing, of exactly the size asked for while more than that is left and otherwise all that is left, and its token names what follows |
| `Pages.FollowingShowsAll` | internal/csi/capacity.go:314-346 | following the tokens over distinct ids, with any page sizes, ends and shows the whole sorted listing, each entry once |
| `Reload.QuotasEqual` | internal/config/namespacequota.go:64-77 | the length-and-lookup comparison is equality |
| `Reload.AlikeIff` | internal/config/reload.go:66-93 | no setting of an appliance differs exactly when only the credential does and no number is a NaN |
| `Reload.CheckReloadable` | internal/config/reload.go:55-110 | lists a change exactly when the configuration may not be replaced; every change listed is one and none of those compared is missed |
| `Reload.ReloadableSymmetric` | internal/config/reload.go:55-110 | what may replace a configuration may be replaced by it |
| `Reload.ReloadableTransitive` | internal/config/reload.go:55-110 | replacements compose |
| `Reload.ReloadableReflexiveIff` | internal/config/reload.go:79-80 | a configuration may replace itself exactly when it holds no NaN; with one, nothing may replace it |
| `Reload.AttemptsKeep` | internal/config/reload.go:169-194 | after any sequence of attempts the running configuration is the startup one or reload-equivalent to it, and every appliance filed under its own name presents, from its startup copy, the credential of the latest file accepted |
| `Reload.UnnamedNodeKept` | internal/config/reload.go:169-194 | a file that may be adopted, with its node id left out, is adopted all the same, and the running node id stays |
| `Reload.FaithfulAtStart` | internal/config/credentials.go:74-86 | which is so at startup |
| `Reload.MisfiledStaysStale` | internal/config/credentials.go:57-86 | rotating the credential of an appliance filed under another name than its own leaves it presenting its old one |
| `Reload.MisfiledTakesOther` | internal/config/credentials.go:57-86 | rotating the one it is named like makes it present that one's new credential |
| `Reload.PresentsIff` | internal/config/credentials.go:57-86 | an appliance presents the latest accepted credential after every sequence of files if and only if it is filed under its own name, or a NaN keeps every file from being adopted |
| `Reload.Reloader.RotatedCredentials` | internal/config/reload.go:115-127 | exactly the credentials that differ, with their new values |
| `Reload.Reloader.Reload` | internal/config/reload.go:169-194 | adopts a file exactly when it loads and may replace the current one, a missing node id taken over; otherwise changes nothing |
| `Reload.Reloader.ApplyRotated` | cmd/truenas-csi/hardening.go:112-120 | records every rotated credential and no other |
| `Reload.Reloader.OnChange` | internal/config/reload.go:201-217 | what the watcher does on a change is one attempt |

## Left out

- Replication task ids, several tasks of one name or schema, and the TaskID, SnapshotTaskIDs and Message fields of the stored state: a task is identified by its name here.
- What a replication run moves: snapshots and data change on either side by steps of their own, between two operations of a group and not within one.
- Outcomes.FailbackAchieves: says nothing of the data that the reverse replication carries back, which the driver starts and does not look at.
- Status, CreateRemoteVolume, DeepCopy and the Kubernetes store of replication groups: they add only easy members.
- Two snapshots with one createtxg: they are kept in listing order, where the driver's sort leaves their order open; that nothing was gained exactly when the mark is last holds for any order.
- Membership of a replication group changing between operations: the members are fixed.
- The encoding of the publish ledger and its size limit, the path of an unpublish whose volume is gone, and validation of publish requests beyond the node id and access mode.
- File-level (NFS and SMB) volumes in the publish theorems: their ledgers may name many nodes by design.
- Timestamps of years outside 0 to 9999, and the saturation of Go durations, which cannot change a comparison with a positive grace period.
- Invalid UTF-8 in a volume name: names are sequences of characters here, each replaced as a rune is.
- Retiring.Retirer.RenameWhenReleased: assumes each sleep lasts at least its delay, as the operating system promises.
- Reaping.SweptWereRetired: assumes that others leave alone an entry being stamped, put no deletion timestamp on the graveyard or above it, make no entry the driver's own and backdate none; they may otherwise edit, remove and replace entries. `CarefulRuns` derives the part about ownership from what others do.
- Retiring.Retirer.Sweep: the method is not interrupted by others; the interleavings of its listing and its destroys with anything else are those of `Reaping`.
- RunOnce over several appliances, the sweep interval, and the clones that keep an expired dataset: a destroy that is refused is one that fails.
- GetGroupSnapshot, creation times and sizes of group members.
- Groups.Snapshots.CreateGroupSnapshot: exactness is stated for the call that takes the snapshot; a later call that finds the anchor trims nothing, so what a failed trim left behind stays.
- Groups.Snapshots.DeleteGroupSnapshot: takes it from ZFS that a clone lies in the pool of the snapshot it came from.
- Which VolumeAttachments are deleted on fencing: they are one action of the log.
- Suggestions.NearestParameter: lower-casing is a function given to it, and the case of an accepted empty name is left open.
- Entries of a listing other than their ids, and int32 page sizes.
- The Load function's parsing, defaults and validation, and pushing a rotated credential into open connections: a file is a configuration or none.
- Settings with a default or several spellings (flavour, intervals, grace period) are compared as the driver reads them; how it reads them is not modelled.
- Health monitoring, node-side mounting, metrics, logging, admin commands, pool reserve and namespace quota arithmetic.
