# CppMicroServices: what the hard parts keep

A Dafny model of four parts of CppMicroServices, with proofs of what they promise, and of exactly when
they do not.  `dafny verify dfyconfig.toml` checks all of it.

## The Configuration Admin engine

The engine implements chapter 104 (Configuration Admin Service) of the OSGi Compendium: a map from PID to
configuration object, an index of factory instances derived from it, change counts, a queue of asynchronous
notifications and a table of pending futures, used by many threads.

- `Pids`, `Repository`: the PID syntax, and one pure function for each critical section that changes the
  map or an object.  An object's address is a fresh number, its position in `objects`.
- `ConfigurationAdmin`: the same as a program: the classes `Configuration`, `Admin` and
  `TrackedServiceWrapper` with their fields, loops and exceptions, each method proved equal to the
  repository function it stands for.
- `Engine`: the whole as a state machine.  A step is one critical section of one thread; `Update` and
  `Remove` leave a continuation behind between their two critical sections, the batch calls one for the
  invalidations and posts that follow the section.  One worker takes tasks in order and needs two steps for
  each: it reads the repository, then it talks to the services.
- `WholeCalls`: a call that nobody interrupts, run through the engine's steps to its end.  The program's
  methods are proved to leave exactly that state.
- `Evolution`, `Protocol`, `Pointers`, `FactoryIndex`: invariants over every interleaving.
- `Agreement` and the `Agreement...` modules, `Progress`: eventual agreement of services and store, and why
  calls and tasks always run out.
- `LastWords`, `Schedules`, `LaterWrites`, `Restarts`: for a PID that is created again or replaced at any
  moment, by a client or by a bundle, what a service ends up with, and whether later writes reach it.
- `Hearing`: who hears of what, from the tracking of a service on, for every PID.
- `Batches`: what the batch calls and the creating calls leave under a PID, in their callers' terms.
- `Undo`, `Bundles`: receipts, and the activator that adds configurations for started bundles.
- `LockOrder`: the mutexes of every procedure, and freedom from deadlock.

What was found about the code, each with the lemma that says so:

- A service can be left without an update when a PID is created again while its removal is still under way:
  the service, the queue or a call may still hold a change count of the earlier object, and an announcement
  is heard only if its count is above the last one (`LaterWrites.EarlyCreationBreaksAgreement` is such a run
  for every non-empty PID).  `LaterWrites.CreationLosesNothingExactly` gives the condition before a
  `GetConfiguration` under which no later write is lost, in any run: nothing that the service remembers or is
  about to be told is ahead of the new object (`NothingStale`).  If nobody writes after it,
  `LastWords.EarlyCreationExactly` says when services and store still agree.
  `AgreementRuns.EventualAgreement` speaks of the runs that create no PID early.
- When `AddConfigurations` replaces an object that somebody is removing, it records and announces count 0
  (lines 476-488 of `ConfigurationAdminImpl.cpp`).  That announcement never hands properties to a service; it
  makes the worker send a removal notice exactly if by then the new object is gone as well
  (`Progress.ReplacementIsHeardExactly`; `Progress.ReplacementBreaksAgreement` is a run that ends in
  disagreement).  Undoing the addition leaves the object behind exactly when it has properties
  (`Undo.ReplacementOutlivesUndo`), and when it has none it is not listed before its first write
  (`Evolution.ListedExactly`).
- A bundle that is stopped and started again may bring a configuration back while its removal is still under
  way.  The new object announces count 1 to a service that may still remember 1 or more: in the runs of
  `Restarts.RestartIsHeardExactly` the service keeps the old properties, however the work is finished.
  `Restarts.BatchAgreesExactly` says when services and store agree after a batch that makes an object anew or
  replaces one, for every schedule and for some, and `Restarts.BatchLosesNothingExactly` when no later write
  is lost.
- An unchanged object is receipted with count 0, so undoing an addition also takes out a configuration that
  somebody else had created but never written (`Undo.UndoExactly` gives the condition).
- `CreateFactoryConfiguration` keeps the index right if and only if the factory PID has no `~`
  (`FactoryIndex.CreateFactoryIndexedExactly`); with a `~`, creating a configuration and removing it leaves a
  PID in the index that is not mapped, and the next lookup of that factory's instances fails its assertion
  (`FactoryIndex.LookupFailsExactly`).
- Two bundles that bring the same PID lose it when one of them stops (`Bundles.BundlesExactly`).

## The template scanner

`Segments` reads a template as a whole: it searches for double braces.  `Scanner` is the twelve-state
machine of the web console that sees one character at a time.  The scanner refines the segmentation for
every text and every resolver; `Templates` says what that means for sections, variables and literal text.
A single brace in front of a closing tag hides it: `{{{/T}}` does not end a
block.

## Chunked output and printed numbers

`Numerals` proves the digit loop and the reversal in place against positional numerals, and the digit table
is read within its bounds exactly for 0 to 2^31-1, for every value of the 64-bit parameter: the loop keeps
the value in an `int`.  `HttpOutput` is the stream buffer with its spare slot, commit and chunk framing,
against a decoder written after section 7.1 of RFC 9112.  `Responses` says what arrives: headers, pieces,
and whole small responses.  Found:

- A flush of an empty buffer sends the chunk that ends the message: what is written later is lost to the
  reader (exactly then), and closing an empty buffer sends the terminator twice.
- A response committed other than through the buffer (a redirect, say) is framed in chunks even if its head
  does not announce it.
- The comment in the destructor says that a length is set if none is set; the code sets it if one is set,
  and overrides what the servlet declared.  The model follows the code.

## Code templates and bundle archives

`Substitution` is the placeholder substituter of the code generator.  Each argument is expanded by the
arguments after it; the passes are one simultaneous substitution, for every template, if and only if these
expansions change no argument, in particular if no argument names the slot of a later one.  `Archive` is the
bookkeeping of entries in the resource compiler's archives, `Entries` the names that things end up under,
and `Manifests` its merge of manifests.  With null members the merge depends on the order of the hash map:
every order succeeds if and only if shared keys are null everywhere.

## Model

| member | source | states |
|---|---|---|
| Pids.FirstTildeOfConcat | compendium/ConfigurationAdmin/src/ConfigurationAdminImpl.cpp:38-47 | The first `~` of a joined text is that of its first part if there is one, else the second part's |
| Pids.FactoryPidOfInstance | compendium/ConfigurationAdmin/src/ConfigurationAdminImpl.cpp:38-47 | The factory PID computed from an instance's PID is the one it was made from exactly if that has no `~` |
| Pids.FactoryPidExactly | compendium/ConfigurationAdmin/src/ConfigurationAdminImpl.cpp:38-47 | A PID has factory PID f, not empty, exactly if it begins with f and `~` and f has no `~` |
| ConfigurationAdmin.Configuration.constructor | compendium/ConfigurationAdmin/src/ConfigurationImpl.cpp:38-57 | A new object; with properties and count 0 it starts at count 1 |
| ConfigurationAdmin.Configuration.GetProperties | compendium/ConfigurationAdmin/src/ConfigurationImpl.cpp:81-90 | The properties, or the exception of a removed object |
| ConfigurationAdmin.Configuration.GetChangeCount | compendium/ConfigurationAdmin/src/ConfigurationImpl.cpp:92-101 | The change count, or the exception of a removed object |
| ConfigurationAdmin.Configuration.HasBeenUpdatedAtLeastOnce | compendium/ConfigurationAdmin/src/ConfigurationImpl.hpp:134-144 | Whether the count is above zero, removed or not |
| ConfigurationAdmin.Configuration.Update | compendium/ConfigurationAdmin/src/ConfigurationImpl.cpp:103-124 | Uninterrupted: one effective write and one announcement with the new count, exactly what the engine's steps of the call leave, queue and futures included; a removed object throws and nothing changes, in the object or in the admin |
| ConfigurationAdmin.Configuration.UpdateIfDifferent | compendium/ConfigurationAdmin/src/ConfigurationImpl.cpp:126-146 | The same if the properties differ; otherwise nothing is written or announced; the result says which; it leaves what the engine's steps leave |
| ConfigurationAdmin.Configuration.Remove | compendium/ConfigurationAdmin/src/ConfigurationImpl.cpp:148-172 | Uninterrupted: the object ends removed and detached; its PID leaves map and index only if it still led here, with two tasks posted if it had ever been updated; it leaves what the engine's steps leave |
| ConfigurationAdmin.Configuration.LeaveAdmin | compendium/ConfigurationAdmin/src/ConfigurationImpl.cpp:160-168 | Second critical section of Remove: the PID leaves the map if it still leads here, then the back pointer is cut |
| ConfigurationAdmin.Configuration.SetProperties | compendium/ConfigurationAdmin/src/ConfigurationImpl.cpp:103-114 | First critical section of Update: one effective write, or the exception and no change |
| ConfigurationAdmin.Configuration.MarkRemoved | compendium/ConfigurationAdmin/src/ConfigurationImpl.cpp:148-159 | First critical section of Remove: removed and still mapped, or the exception |
| ConfigurationAdmin.Configuration.UpdateWithoutNotificationIfDifferent | compendium/ConfigurationAdmin/src/ConfigurationImpl.cpp:174-188 | The new count after a write, count 0 when nothing changed, the exception when removed |
| ConfigurationAdmin.Configuration.RemoveWithoutNotificationIfChangeCountEquals | compendium/ConfigurationAdmin/src/ConfigurationImpl.cpp:190-204 | Marks the object removed exactly if its count is the expected one; nothing else changes |
| ConfigurationAdmin.Configuration.Invalidate | compendium/ConfigurationAdmin/src/ConfigurationImpl.cpp:206-211 | Cuts the back pointer and changes nothing else |
| ConfigurationAdmin.Admin.constructor | compendium/ConfigurationAdmin/src/ConfigurationAdminImpl.cpp:196-212 | An admin starts with an empty repository and no tasks |
| ConfigurationAdmin.Admin.GetConfiguration | compendium/ConfigurationAdmin/src/ConfigurationAdminImpl.cpp:294-322 | Returns the object mapped afterwards, a new one only if there was none; map, index, objects, queue and futures as after the engine's step |
| ConfigurationAdmin.Admin.CreateFactoryConfiguration | compendium/ConfigurationAdmin/src/ConfigurationAdminImpl.cpp:324-353 | The first drawn name that gives a free PID, all earlier ones being taken, gets the new object, and that is returned; if all are taken nothing changes |
| ConfigurationAdmin.Admin.ListConfigurations | compendium/ConfigurationAdmin/src/ConfigurationAdminImpl.cpp:371-428 | Unfiltered: exactly the mapped objects with a count above zero |
| ConfigurationAdmin.Admin.AddOne | compendium/ConfigurationAdmin/src/ConfigurationAdminImpl.cpp:439-489 | One metadata entry: create, write if different, or replace an object being removed; receipt, object to invalidate and whether to announce |
| ConfigurationAdmin.Admin.AddConfigurations | compendium/ConfigurationAdmin/src/ConfigurationAdminImpl.cpp:430-518 | All entries in order; receipts, objects invalidated after the section, one announcement per created or changed object, in order; repository, queue and futures are those that the engine's steps of the call leave when run to its end |
| ConfigurationAdmin.Admin.RemoveOne | compendium/ConfigurationAdmin/src/ConfigurationAdminImpl.cpp:528-570 | One receipt: takes the PID out if it still leads to the receipt's object and that is removed or has the receipt's count |
| ConfigurationAdmin.Admin.RemoveConfigurations | compendium/ConfigurationAdmin/src/ConfigurationAdminImpl.cpp:520-599 | All receipts in order; invalidations after the section; one announcement per erased object that had been updated; likewise what the engine's steps leave |
| ConfigurationAdmin.Admin.NotifyConfigurationRemoved | compendium/ConfigurationAdmin/src/ConfigurationAdminImpl.cpp:743-791 | Takes the PID out only if it leads to the calling object; posts announcement and log task only if that had been updated |
| ConfigurationAdmin.Admin.PerformAsync | compendium/ConfigurationAdmin/src/ConfigurationAdminImpl.cpp:1033-1068 | A task gets the next id, is recorded as incomplete and queued last |
| ConfigurationAdmin.Admin.AddFactoryInstanceIfRequired | compendium/ConfigurationAdmin/src/ConfigurationAdminImpl.cpp:1083-1096 | Adds the PID under its factory, if it has one |
| ConfigurationAdmin.Admin.RemoveFactoryInstanceIfRequired | compendium/ConfigurationAdmin/src/ConfigurationAdminImpl.cpp:1098-1115 | Takes the PID out under the factory PID recomputed from it, and the factory out with its last instance |
| ConfigurationAdmin.Admin.CollectInstances | compendium/ConfigurationAdmin/src/ConfigurationAdminImpl.cpp:938-970 | The loop collects exactly the live, updated instances with their properties and counts |
| ConfigurationAdmin.TrackedServiceWrapper.NeedsAnUpdateNotification | compendium/ConfigurationAdmin/src/ConfigurationAdminImpl.hpp:94-99 | Whether the last count is below the announced one; looking up an unknown PID records 0 |
| ConfigurationAdmin.TrackedServiceWrapper.Notify | compendium/ConfigurationAdmin/src/ConfigurationAdminImpl.cpp:679-739 | One service's turn: a removal notice, the new properties with their count recorded, or nothing |
| ConfigurationAdmin.NotifyServices | compendium/ConfigurationAdmin/src/ConfigurationAdminImpl.cpp:679-739 | The loop gives every tracked service exactly its own turn |
| WholeCalls.UpdateAlone | compendium/ConfigurationAdmin/src/ConfigurationImpl.cpp:103-124 | Run to its end alone, Update writes the properties, raises the count by one and posts one announcement of that count if the back pointer is set |
| WholeCalls.UpdateIfDifferentAlone | compendium/ConfigurationAdmin/src/ConfigurationImpl.cpp:126-146 | So does UpdateIfDifferent, unless the object shows the properties already: then nothing at all changes |
| WholeCalls.RemoveAlone | compendium/ConfigurationAdmin/src/ConfigurationImpl.cpp:148-172 | Run to its end alone, Remove leaves the object removed and cut off; only if it was mapped the PID leaves the map, and if it had been updated an announcement and a log entry are posted in this order |
| WholeCalls.AdditionAlone | compendium/ConfigurationAdmin/src/ConfigurationAdminImpl.cpp:430-518 | Run to its end alone, AddConfigurations is its section, then the invalidations, then one announcement for each notice with its PID and count |
| WholeCalls.RemovalAlone | compendium/ConfigurationAdmin/src/ConfigurationAdminImpl.cpp:520-599 | So is RemoveConfigurations |
| WholeCalls.LateUpdateAnnounces | compendium/ConfigurationAdmin/src/ConfigurationImpl.cpp:115-119 | After anything that other threads did between its two sections, an Update announces the count of that moment, removed or not, unless its back pointer has been cut |
| WholeCalls.FinishAlone | compendium/ConfigurationAdmin/src/ConfigurationAdminImpl.cpp:500-517 | From any state, the rest of a batch call is its invalidations in order, then its posts in order |
| WholeCalls.PostedInOrder | compendium/ConfigurationAdmin/src/ConfigurationAdminImpl.cpp:1033-1068 | Posted tasks join the queue in order under consecutive new ids, and all of these are incomplete |
| WholeCalls.DetachedExactly | compendium/ConfigurationAdmin/src/ConfigurationImpl.cpp:206-211 | The invalidations cut the back pointers of the objects named and change nothing else |
| Batches.OneMoreEntry | compendium/ConfigurationAdmin/src/ConfigurationAdminImpl.cpp:439-517 | Each further entry adds one receipt, and one announcement with the receipt's PID and count if it created or changed an object |
| Batches.OneEntry | compendium/ConfigurationAdmin/src/ConfigurationAdminImpl.cpp:444-489 | The receipt and the counts for each of the four cases: a free PID counts 1, a write the next count, a repetition and a replacement 0; only a replacement leaves an object to be cut off |
| Batches.AdditionStoresTheLast | compendium/ConfigurationAdmin/src/ConfigurationAdminImpl.cpp:430-489 | After AddConfigurations every PID named leads to a live object that shows the properties of its last entry, and that entry's receipt names it |
| Batches.OneMoreReceipt | compendium/ConfigurationAdmin/src/ConfigurationAdminImpl.cpp:528-586 | Each further receipt that takes its object out leaves that removed and to be cut off, and announces the receipt's count if it had ever been updated; any other changes nothing |
| Batches.RemovalTakesOutExactly | compendium/ConfigurationAdmin/src/ConfigurationAdminImpl.cpp:520-570 | After RemoveConfigurations a PID is gone exactly if some receipt named its object and that was removed or still had the receipt's count; what stays is unchanged |
| Batches.AskedForIsThere | compendium/ConfigurationAdmin/src/ConfigurationAdminImpl.cpp:294-322 | Asking for a PID changes nothing if it is mapped, otherwise adds one empty, never updated object |
| Batches.FactoryConfigurationIsNew | compendium/ConfigurationAdmin/src/ConfigurationAdminImpl.cpp:324-353 | The same for a factory configuration under a free PID; its PID is the factory's, `~` and the name |
| Batches.IndexHoldsInstances | compendium/ConfigurationAdmin/src/ConfigurationAdminImpl.cpp:1083-1115 | Over every run whose factory PIDs have no `~`: the index holds exactly the mapped PIDs that begin with the factory's and `~`, and no empty set |
| Evolution.RunEvolves | compendium/ConfigurationAdmin/src/ConfigurationImpl.cpp:103-188 | Over any run counts grow by one with each effective write and never otherwise, freeze on removal, and an object out of the map stays out |
| Evolution.RunCounted | compendium/ConfigurationAdmin/src/ConfigurationImpl.cpp:38-57 | In every reachable state a count is the count at birth plus the effective writes, and 0 only with empty properties |
| Evolution.ListedExactly | compendium/ConfigurationAdmin/src/ConfigurationAdminImpl.cpp:371-428 | A mapped object is listed if and only if it was ever written or came from metadata, but for an empty replacement |
| Protocol.NextKeepsProtocol | compendium/ConfigurationAdmin/src/ConfigurationImpl.cpp:148-211 | Every step of every thread keeps the protocol invariant |
| Protocol.ReachableProtocol | compendium/ConfigurationAdmin/src/ConfigurationImpl.cpp:148-211 | In every interleaving a mapped object has its back pointer, and one that is mapped and removed has a Remove between its two critical sections |
| Protocol.MappedIffAlive | compendium/ConfigurationAdmin/src/ConfigurationImpl.cpp:148-172 | With no Remove in flight an object is mapped if and only if it is not removed |
| Pointers.NextKeepsPointers | compendium/ConfigurationAdmin/src/ConfigurationAdminImpl.cpp:491-498 | Every step of every thread keeps the invariant that a back pointer outliving its mapping is about to be cut |
| Pointers.ReachablePointers | compendium/ConfigurationAdmin/src/ConfigurationImpl.cpp:148-211 | In every reachable state, for every object out of the map: its back pointer is cut, or a call under way is about to cut it; none is left once all calls have returned |
| Protocol.LateRemoveSparesOthers | compendium/ConfigurationAdmin/src/ConfigurationAdminImpl.cpp:743-774 | A late Remove never evicts a newer object under the same PID, and touches no other object |
| Protocol.LeavesOnce | compendium/ConfigurationAdmin/src/ConfigurationAdminImpl.cpp:430-599 | An object that has left the map never comes back to it, whichever call took it out |
| Protocol.ReachableFutures | compendium/ConfigurationAdmin/src/ConfigurationAdminImpl.cpp:1033-1068 | In every reachable state the incomplete futures are exactly the ids queued or being worked on, all distinct |
| Protocol.FuturesExact | compendium/ConfigurationAdmin/src/ConfigurationAdminImpl.cpp:1033-1125 | The clean-up always finds its future, and no future is incomplete if and only if every posted task has finished |
| Protocol.IdsNeverReused | compendium/ConfigurationAdmin/src/ConfigurationAdminImpl.cpp:1033-1046 | A task posted later has an id that no earlier task had |
| FactoryIndex.RegisterIndexed | compendium/ConfigurationAdmin/src/ConfigurationAdminImpl.cpp:294-352 | Registering an object keeps the index right if and only if it is indexed under the factory PID that its PID gives |
| FactoryIndex.CreateFactoryIndexedExactly | compendium/ConfigurationAdmin/src/ConfigurationAdminImpl.cpp:324-353 | Creating a factory configuration keeps the index right if and only if the factory PID has no `~` |
| FactoryIndex.NextIndexedExactly | compendium/ConfigurationAdmin/src/ConfigurationAdminImpl.cpp:1083-1115 | Of all steps only one keeps a right index from staying right: a factory configuration made under a factory PID with a `~` |
| FactoryIndex.ReachableIndexedExactly | compendium/ConfigurationAdmin/src/ConfigurationAdminImpl.cpp:1083-1115 | Over every run: the index is the one computed from the map, without empty sets, after every prefix if and only if every factory PID that a configuration is made under has no `~` |
| FactoryIndex.InstanceLookupNeverFails | compendium/ConfigurationAdmin/src/ConfigurationAdminImpl.cpp:941-948 | After such a run every PID in the index is mapped: the assertion of the factory AddingService holds |
| FactoryIndex.LookupFailsExactly | compendium/ConfigurationAdmin/src/ConfigurationAdminImpl.cpp:941-948 | Creating a factory configuration and removing it leaves all lookups working if and only if the factory PID has no `~` |
| AgreementRuns.NextConsistent | compendium/ConfigurationAdmin/src/ConfigurationAdminImpl.cpp:601-876 | Every step that creates no PID while something can still be said about its earlier object keeps the agreement invariant for all services and PIDs |
| AgreementRuns.QuietRunConsistent | compendium/ConfigurationAdmin/src/ConfigurationAdminImpl.cpp:601-876 | So does every run |
| AgreementRuns.EventualAgreement | compendium/ConfigurationAdmin/src/ConfigurationAdminImpl.cpp:601-876 | Once no call is half done and no task is left, every tracked service was last handed exactly the stored properties, or a removal notice or nothing |
| Hearing.InterestedExactly | compendium/ConfigurationAdmin/src/ConfigurationAdminImpl.cpp:679-739 | A managed service is concerned with its own PID alone, a factory with exactly the PIDs that begin with its PID and `~`, whatever the name |
| Hearing.ManagedServiceHears | compendium/ConfigurationAdmin/src/ConfigurationAdminImpl.cpp:601-876 | From the tracking of a managed service to the end of a quiet run: at rest it was last handed the properties stored under its PID, or nothing or no properties if none are stored |
| Hearing.FactoryHears | compendium/ConfigurationAdmin/src/ConfigurationAdminImpl.cpp:709-735 | The same for a factory without `~` and each instance, for every name |
| Hearing.HearsOnlyItsOwn | compendium/ConfigurationAdmin/src/ConfigurationAdminImpl.cpp:679-739 | Over every run, quiet or not: whatever a service was handed is about its own PID, or about an instance of its factory |
| Hearing.TurnExactly | compendium/ConfigurationAdmin/src/ConfigurationAdminImpl.cpp:679-739 | One service's turn at an announcement: told of a removal and the count forgotten, handed the properties if the count is above the last one, or left alone |
| Hearing.NewManagedServiceIsTold | compendium/ConfigurationAdmin/src/ConfigurationAdminImpl.cpp:793-876 | What a newly tracked managed service is handed and which count it remembers, also when its PID is being removed |
| Hearing.NewFactoryIsTold | compendium/ConfigurationAdmin/src/ConfigurationAdminImpl.cpp:909-998 | A new factory is handed exactly the live, updated instances in the index, all in one task, or no task is posted |
| Hearing.HandOverArrives | compendium/ConfigurationAdmin/src/ConfigurationAdminImpl.cpp:909-998 | That task adds to what the service was handed and touches no count and no other service |
| Hearing.RemovedStaysAway | compendium/ConfigurationAdmin/src/ConfigurationAdminImpl.cpp:884-907 | A service that is removed is gone for good, and nothing else changes |
| Agreement.QuiescentAgrees | compendium/ConfigurationAdmin/src/ConfigurationAdminImpl.cpp:601-741 | In a state at rest the invariant is that agreement |
| AgreementFinish.FinishKeeps | compendium/ConfigurationAdmin/src/ConfigurationAdminImpl.cpp:679-739 | The worker's second step keeps what is said about every service it tells and about those it does not |
| AgreementWorker.TakeKeeps | compendium/ConfigurationAdmin/src/ConfigurationAdminImpl.cpp:611-665 | The worker's first step, which reads the repository, keeps it too |
| AgreementWorker.AddManagedKeeps | compendium/ConfigurationAdmin/src/ConfigurationAdminImpl.cpp:793-876 | A managed service that starts being tracked agrees from the start and disturbs no other |
| AgreementWorker.AddFactoryKeeps | compendium/ConfigurationAdmin/src/ConfigurationAdminImpl.cpp:909-998 | The same for a factory and each of its instances |
| AgreementSteps.UpdateKeeps | compendium/ConfigurationAdmin/src/ConfigurationImpl.cpp:103-146 | A write makes its own announcement the one that matters for every service |
| AgreementSteps.RemoveKeeps | compendium/ConfigurationAdmin/src/ConfigurationImpl.cpp:148-172 | Marking an object removed promises every service a removal notice |
| AgreementCalls.ResumeKeeps | compendium/ConfigurationAdmin/src/ConfigurationAdminImpl.cpp:491-517 | The later sections of every call keep what was promised |
| Progress.EveryScheduleEnds | compendium/ConfigurationAdmin/src/CMAsyncWorkService.cpp:42-101 | Once clients stop, every schedule of steps that get something done is no longer than the work left at its start, and one that cannot be continued has reached rest |
| Progress.QuiescentExactly | compendium/ConfigurationAdmin/src/CMAsyncWorkService.cpp:42-101 | A state is at rest if and only if no step of a call or of the worker gets anything done |
| Progress.RunsOut | compendium/ConfigurationAdmin/src/CMAsyncWorkService.cpp:42-101 | From every state some schedule leads to rest |
| Progress.ComesToAgree | compendium/ConfigurationAdmin/src/ConfigurationAdminImpl.cpp:601-741 | So every quiet run can be finished, and then all services agree |
| Progress.ReplacementIsHeardExactly | compendium/ConfigurationAdmin/src/ConfigurationAdminImpl.cpp:476-488 | Whatever the repository holds when the worker gets to it, the announcement for a replaced object leaves what an interested service was handed as it was, or adds a removal notice, the latter exactly if the PID is unmapped by then or leads to a removed object that had been updated |
| Progress.ReplacementBreaksAgreement | compendium/ConfigurationAdmin/src/ConfigurationAdminImpl.cpp:476-488 | A run at rest in which a tracked service does not hold the stored properties |
| LastWords.AtRestOneOfTwo | compendium/ConfigurationAdmin/src/ConfigurationAdminImpl.cpp:601-741 | While a PID leads to a live object that nobody writes to, every way of letting all work run out leaves the service with one of two last words, computed from what it knows, the queue and the calls under way: with and without what an `Update` stalled on an earlier object may announce |
| Schedules.WordsAtRestExactly | compendium/ConfigurationAdmin/src/ConfigurationAdminImpl.cpp:601-741 | Exactly these two words can be reached |
| Schedules.AgreesAnywayExactly | compendium/ConfigurationAdmin/src/ConfigurationAdminImpl.cpp:601-741 | Every schedule ends in agreement if and only if the word without those announcements tells the stored properties |
| Schedules.AgreesSomehowExactly | compendium/ConfigurationAdmin/src/ConfigurationAdminImpl.cpp:601-741 | Some schedule does if and only if the word with them tells it |
| LastWords.WriteAtRestExactly | compendium/ConfigurationAdmin/src/ConfigurationAdminImpl.hpp:87-99 | A write at rest that takes the count to n is handed to the service if and only if the last count it received is below n; otherwise it keeps what it had |
| LastWords.EarlyCreationExactly | compendium/ConfigurationAdmin/src/ConfigurationAdminImpl.cpp:294-322 | Creating a PID at any moment and letting all work run out without a write ends in agreement if and only if the last word on its way to the service was not a set of properties |
| LastWords.QuietCreationIsSafe | compendium/ConfigurationAdmin/src/ConfigurationAdminImpl.cpp:294-322 | With nothing on its way about the PID that word never is |
| LaterWrites.LaterWritesArrive | compendium/ConfigurationAdmin/src/ConfigurationAdminImpl.cpp:601-741 | From a state where nothing stale is ahead of the live object's count: after any run of any steps that ends at rest with the object alive and written to, the service holds its properties |
| LaterWrites.MissedWrite | compendium/ConfigurationAdmin/src/ConfigurationAdminImpl.cpp:601-741 | From every other state there is a run after which the service does not |
| LaterWrites.LaterWritesArriveExactly | compendium/ConfigurationAdmin/src/ConfigurationAdminImpl.cpp:601-741 | So every later write arrives, in every run, if and only if nothing stale is ahead |
| LaterWrites.CreationLosesNothingExactly | compendium/ConfigurationAdmin/src/ConfigurationAdminImpl.cpp:294-322 | The same condition read off the state before a PID is created, in terms of the counts remembered, queued, promised and with the worker |
| LaterWrites.QuietIsNotStale | compendium/ConfigurationAdmin/src/ConfigurationAdminImpl.cpp:294-322 | Where the runs of the eventual agreement create a PID, that condition holds |
| LaterWrites.EarlyCreationBreaksAgreement | compendium/ConfigurationAdmin/src/ConfigurationAdminImpl.cpp:294-322 | For every non-empty PID a run from the start that creates it again during its removal, writes to it, and comes to rest with a service that does not hold what is stored |
| Restarts.BatchLosesNothingExactly | compendium/ConfigurationAdmin/src/ConfigurationAdminImpl.cpp:430-518 | After a batch of any entries that makes a PID's object anew, where it is not mapped or its object is being removed: no later write is lost, in any run, if and only if nothing stale is ahead of the new object's count |
| Restarts.BatchAgreesExactly | compendium/ConfigurationAdmin/src/ConfigurationAdminImpl.cpp:430-518 | And without a later write: every schedule, or some schedule, ends in agreement if and only if what the service will certainly, or possibly, hear tells the new properties; read off the state before and the batch's own announcements |
| Restarts.RestartIsHeardExactly | compendium/ConfigurationAdmin/src/ConfigurationAdminImpl.cpp:444-455 | A run from the start for every non-empty PID: a service is tracked, the configuration's removal is under way, a bundle brings the PID back; some schedule ends in agreement if and only if the properties are the old ones |
| Undo.RemoveAllExactly | compendium/ConfigurationAdmin/src/ConfigurationAdminImpl.cpp:520-585 | Removing by receipts takes out exactly the PIDs that some receipt fits |
| Undo.AddChanges | compendium/ConfigurationAdmin/src/ConfigurationAdminImpl.cpp:444-475 | After entries that change a PID some receipt fits its object, however often the PID is repeated |
| Undo.AddRepeats | compendium/ConfigurationAdmin/src/ConfigurationAdminImpl.cpp:456-475 | Entries that only repeat the stored properties leave the object alone, and their receipts fit only count 0 |
| Undo.AddReplaces | compendium/ConfigurationAdmin/src/ConfigurationAdminImpl.cpp:476-488 | After entries for an object that somebody is removing, the PID leads to a new object that nobody is removing |
| Undo.UndoExactly | compendium/ConfigurationAdmin/src/ConfigurationAdminImpl.cpp:430-599 | Adding and then removing by the receipts restores map and index if and only if every entry is harmless to what was there |
| Undo.UndoAbsent | compendium/ConfigurationAdmin/src/ConfigurationAdminImpl.cpp:430-599 | For PIDs that were absent it always does, repeated entries included |
| Undo.ReplacementOutlivesUndo | compendium/ConfigurationAdmin/src/ConfigurationAdminImpl.cpp:476-488 | A replacement survives its undo if and only if it was given properties |
| Undo.UndoSparesTheWritten | compendium/ConfigurationAdmin/src/ConfigurationAdminImpl.cpp:538-559 | After any steps in between, removing by receipt marks no object that was written since, nor one registered later |
| Bundles.Activator.CreateExtension | compendium/ConfigurationAdmin/src/CMActivator.cpp:93-138 | One extension per bundle; a second start, or a bundle without configurations, changes nothing |
| Bundles.Activator.RemoveExtension | compendium/ConfigurationAdmin/src/CMActivator.cpp:140-168 | Removes the extension and undoes its receipts; nothing for an unknown bundle |
| Bundles.Activator.BundleChanged | compendium/ConfigurationAdmin/src/CMActivator.cpp:170-190 | Own events are skipped, started and stopping events dispatched, others ignored |
| Bundles.Activator.Handle | compendium/ConfigurationAdmin/src/CMActivator.cpp:170-190 | A sequence of events leaves the registry and the repository that the events determine |
| Bundles.EventsSound | compendium/ConfigurationAdmin/src/CMBundleExtension.cpp:35-78 | With disjoint PIDs every mapped PID belongs to a registered bundle, which holds a receipt that fits |
| Bundles.RegisteredIffRunning | compendium/ConfigurationAdmin/src/CMActivator.cpp:93-190 | A bundle is registered if and only if its last event was a start |
| Bundles.MappedWhileRunning | compendium/ConfigurationAdmin/src/CMActivator.cpp:93-190 | If no two bundles share a PID: after any events a bundle's PID is mapped exactly if some start of it is followed by no stop, and then leads to a live object with the properties of the bundle's last entry for it |
| Bundles.NothingElseMapped | compendium/ConfigurationAdmin/src/CMActivator.cpp:93-190 | A PID that no bundle but the activator's own brings is never mapped |
| Bundles.SharedPidIsLost | compendium/ConfigurationAdmin/src/CMActivator.cpp:93-190 | Two bundles with a PID in common: a run that loses it while one of them is registered |
| Bundles.BundlesExactly | compendium/ConfigurationAdmin/src/CMActivator.cpp:93-190 | The mapped PIDs are the union of those of the registered bundles after every run of events if and only if the bundles' PIDs are disjoint |
| LockOrder.BodiesDisciplined | compendium/ConfigurationAdmin/src/ConfigurationAdminImpl.cpp:430-599 | Every procedure takes its locks in the common order and releases them all |
| LockOrder.NoDeadlock | compendium/ConfigurationAdmin/src/ConfigurationAdminImpl.cpp:491-495 | Over every interleaving of every set of calls no group of threads waits in a circle |
| LockOrder.SomebodyCanGoOn | compendium/ConfigurationAdmin/src/ConfigurationAdminImpl.cpp:491-495 | As long as some thread has something to do, some thread can go on |
| LockOrder.EagerInvalidationDeadlocks | compendium/ConfigurationAdmin/src/ConfigurationAdminImpl.cpp:491-495 | If the object were invalidated inside the section, four steps next to a Remove of that object end with both threads waiting for each other |
| Numerals.NumeralReadsBack | httpservice/src/HttpServletResponse.cpp:87-149 | The numeral reads back as the number |
| Numerals.NumeralInDigits | httpservice/src/HttpServletResponse.cpp:87-149 | Its digits are 0 to 9 and a to f, the last one the remainder by the base |
| Numerals.NumeralIsUnique | httpservice/src/HttpServletResponse.cpp:87-149 | No other string of digits without a leading zero does |
| Numerals.WriteDigits | httpservice/src/HttpServletResponse.cpp:97-102 | The digit loop ends within 31 characters and leaves the numeral reversed |
| Numerals.Invert | httpservice/src/HttpServletResponse.cpp:109-115 | The two-ended swap reverses the prefix in place and leaves the rest |
| Numerals.LexicalCast | httpservice/src/HttpServletResponse.cpp:87-117 | The decimal numeral of every value from 0 to 2^31-1 |
| Numerals.LexicalCastHex | httpservice/src/HttpServletResponse.cpp:119-149 | The hexadecimal numeral, likewise |
| Numerals.TableExactly | httpservice/src/HttpServletResponse.cpp:87-149 | For every 64-bit value the digit table is read within bounds if and only if 0 <= value <= 2^31-1 |
| HttpOutput.HttpServletResponse.Commit | httpservice/src/HttpServletResponse.cpp:67-85 | The head is sent at most once, with the headers of that moment |
| HttpOutput.HttpOutputStreamBuffer.constructor | httpservice/src/HttpOutputStreamBuffer.cpp:35-42 | An empty put area with one spare slot, chunked until committed |
| HttpOutput.HttpOutputStreamBuffer.Commit | httpservice/src/HttpOutputStreamBuffer.cpp:64-78 | The first commit decides on chunks by the absence of a length and announces them |
| HttpOutput.HttpOutputStreamBuffer.SendBuffer | httpservice/src/HttpOutputStreamBuffer.cpp:102-128 | Sends the put area, framed or verbatim, empties it, and reports failure when nothing was sent |
| HttpOutput.HttpOutputStreamBuffer.Put | httpservice/src/HttpOutputStreamBuffer.cpp:80-94 | A character goes into the put area; one too many fills the spare slot and sends |
| HttpOutput.HttpOutputStreamBuffer.Sync | httpservice/src/HttpOutputStreamBuffer.cpp:96-100 | 0 or -1; -1 without a connection and for an empty buffer that is not chunked |
| HttpOutput.HttpOutputStreamBuffer.Destroy | httpservice/src/HttpOutputStreamBuffer.cpp:44-62 | Corrects a declared length, sends the rest, ends the chunks |
| HttpOutput.IndexExactly | httpservice/src/HttpOutputStreamBuffer.cpp:80-94 | After every use the write index is within the put area if and only if there is a connection or everything fits |
| HttpOutput.Conservation | httpservice/src/HttpOutputStreamBuffer.cpp:81-128 | Bytes sent plus bytes in the put area are the bytes written, in order |
| HttpOutput.BodyIsFrames | httpservice/src/HttpOutputStreamBuffer.cpp:102-128 | The connection has received exactly the framed buffers; framing and head never change once committed |
| HttpOutput.FramesDecode | httpservice/src/HttpOutputStreamBuffer.cpp:114-125 | Frames decode to their data up to the first empty one |
| HttpOutput.BodyReadsBack | httpservice/src/HttpOutputStreamBuffer.cpp:35-128 | A finished response is verbatim what was written, or a well-formed chunked body of what was written before the first empty flush |
| HttpOutput.ChunkedExactly | httpservice/src/HttpOutputStreamBuffer.cpp:44-128 | Everything arrives if and only if nobody writes after flushing an empty buffer; nothing trails if and only if no flush found it empty |
| HttpOutput.HeadAgrees | httpservice/src/HttpOutputStreamBuffer.cpp:64-78 | Committed through the buffer, the head announces the framing in use; committed elsewhere, chunks are sent regardless |
| HttpOutput.UnannouncedChunksSpoil | httpservice/src/HttpServletResponse.cpp:465-468 | After a commit elsewhere the body is never what was written |
| HttpOutput.LengthIsTrue | httpservice/src/HttpOutputStreamBuffer.cpp:49-56 | When all content waited until the end, a declared length is sent as the true one |
| Responses.HeaderReachesTheHead | httpservice/src/HttpOutputStreamBuffer.cpp:64-78 | Over every use: a header other than the two the buffer sets, set before the commit and not again before it, is in the head with its value |
| Responses.HeadHoldsNothingElse | httpservice/src/HttpOutputStreamBuffer.cpp:64-78 | And every header in the head, but for Transfer-Encoding, was there from the start or was set before the commit |
| Responses.PiecesAreFull | httpservice/src/HttpOutputStreamBuffer.cpp:80-128 | Without a flush every piece sent before the end is one character longer than the put area |
| Responses.SmallChunkedResponse | httpservice/src/HttpOutputStreamBuffer.cpp:44-128 | A response that fits and has no length: one chunk with its size in hexadecimal, the end of the chunks, and the servlet's headers with the announcement of chunks |
| Responses.SmallPlainResponse | httpservice/src/HttpOutputStreamBuffer.cpp:44-128 | One that has a length goes out as it is, with the length corrected in decimal |
| Segments.SegmentSpells | webconsole/src/VariableResolverStreamBuffer.cpp:69-236 | Pieces and held-back tail spell the text exactly |
| Segments.PiecesAreWellFormed | webconsole/src/VariableResolverStreamBuffer.cpp:99-224 | Every tag is a variable ending at its first `}}` from offset 3 on, or a block opened and closed by the same tag; no literal holds a double brace |
| Scanner.VariableResolverStreamBuffer.constructor | webconsole/src/VariableResolverStreamBuffer.cpp:33-45 | Starts in NIL with empty buffers |
| Scanner.VariableResolverStreamBuffer.Parse | webconsole/src/VariableResolverStreamBuffer.cpp:69-227 | One character: the twelve-state transition with its buffers and output |
| Scanner.VariableResolverStreamBuffer.Write | webconsole/src/VariableResolverStreamBuffer.cpp:49-61 | A text is parsed character by character |
| Scanner.BlockRun | webconsole/src/VariableResolverStreamBuffer.cpp:158-225 | Inside a block the machine hands over exactly where the search for the block's end ends, and holds everything back until then |
| Scanner.TagRun | webconsole/src/VariableResolverStreamBuffer.cpp:99-224 | The same from the opening of any tag |
| Scanner.ScannerRefinesSegments | webconsole/src/VariableResolverStreamBuffer.cpp:69-236 | For every text and resolver the output is the literals unchanged and the tags resolved, and the tail is held back |
| Scanner.NothingIsLost | webconsole/src/VariableResolverStreamBuffer.cpp:69-236 | With a resolver that leaves the tags of the text alone, output and held-back text are the input |
| Scanner.BuffersAreClean | webconsole/src/VariableResolverStreamBuffer.h:89-116 | In NIL all three buffers are empty, and only then is nothing held back |
| Scanner.BraceHidesClosingTag | webconsole/src/VariableResolverStreamBuffer.cpp:158-191 | `{{{/T}}` leaves a block open, for every T without an opening brace |
| Templates.SectionEnds | webconsole/src/VariableResolverStreamBuffer.cpp:99-225 | A tag that opens with `#` or `^` ends behind the closing tag of its name, whatever stands around it |
| Templates.VariableEnds | webconsole/src/VariableResolverStreamBuffer.cpp:99-146 | Every other first character gives a variable; it ends at its first double brace |
| Templates.InnerTagsAreSkipped | webconsole/src/VariableResolverStreamBuffer.cpp:158-225 | A tag inside a section does not end it unless it closes the same name |
| Templates.SectionIsResolvedWhole | webconsole/src/VariableResolverStreamBuffer.cpp:69-236 | The scanner hands such a section over whole, once, and passes the text around it |
| Templates.VariableIsResolved | webconsole/src/VariableResolverStreamBuffer.cpp:69-236 | And such a variable |
| Templates.LiteralPasses | webconsole/src/VariableResolverStreamBuffer.cpp:69-98 | Text without a double brace passes at once, but for a brace at its end |
| Templates.NothingBetweenBraces | webconsole/src/VariableResolverStreamBuffer.cpp:99-146 | `{{}}` is no tag yet; a third closing brace makes it one |
| Substitution.FindFrom | compendium/tools/SCRCodeGen/Util.hpp:214 | The first occurrence from a position on, or none |
| Substitution.Replace | compendium/tools/SCRCodeGen/Util.hpp:206-221 | One pass ends for all arguments and replaces every occurrence once, left to right |
| Substitution.Substitute | compendium/tools/SCRCodeGen/Util.hpp:244-250 | The passes in the order of the arguments |
| Substitution.PassInlines | compendium/tools/SCRCodeGen/Util.hpp:206-221 | One pass over a template fills in one slot and disturbs nothing else |
| Substitution.PassesExpand | compendium/tools/SCRCodeGen/Util.hpp:228-250 | The passes expand every slot, arguments being expanded by later arguments only |
| Substitution.PassesAreSimultaneousExactly | compendium/tools/SCRCodeGen/Util.hpp:238-250 | The passes are one simultaneous substitution for every template if and only if no argument is changed by the arguments after it |
| Substitution.NoneForwardIsSettled | compendium/tools/SCRCodeGen/Util.hpp:228-250 | That is so when no argument has a slot for a later one |
| Substitution.PlainArguments | compendium/tools/SCRCodeGen/Util.hpp:238-250 | In particular for arguments without an opening brace |
| Substitution.PlaceholderIsFilled | compendium/tools/SCRCodeGen/Util.hpp:206-250 | A number in braces among other text is replaced by the argument of that number, for every number, and stays if there is none |
| Substitution.ForwardSlotIsRefilled | compendium/tools/SCRCodeGen/Util.hpp:228-250 | An argument `{1}` for slot 0 is replaced by argument 1 |
| Manifests.Include | tools/rc/ResourceCompiler.cpp:281-300 | One manifest is copied into the root if it clashes with no value there; the reported key clashes |
| Manifests.AggregateManifests | tools/rc/ResourceCompiler.cpp:274-312 | The merge succeeds exactly if no manifest clashes with those before it, and gives their sum |
| Manifests.SucceedsExactly | tools/rc/ResourceCompiler.cpp:274-312 | That is so if and only if no key that has a value comes back later |
| Manifests.MergedExactly | tools/rc/ResourceCompiler.cpp:274-312 | In the terms of the manifests: that condition, and the root holds the keys of all of them, each with the value of the last one that has it |
| Manifests.SucceedsIffDisjoint | tools/rc/ResourceCompiler.cpp:274-312 | Without null members: if and only if the keys are disjoint |
| Manifests.OrderNeverMattersWithoutNulls | tools/rc/ResourceCompiler.cpp:274-312 | Without null members every order of the hash map gives the same verdict and the same root |
| Manifests.OrderIsIrrelevantExactly | tools/rc/ResourceCompiler.cpp:274-312 | Every order succeeds if and only if shared keys are null everywhere, and then with the same root |
| Manifests.NullMakesOrderMatter | tools/rc/ResourceCompiler.cpp:291-299 | Two manifests that merge in one order and clash in the other |
| Archive.ZipArchive.CheckAndAddToArchivedNames | tools/rc/ResourceCompiler.cpp:399-408 | Refuses a name already recorded |
| Archive.ZipArchive.AddManifestFile | tools/rc/ResourceCompiler.cpp:410-428 | The manifest and the bundle's directory, or a refusal that changes nothing |
| Archive.ZipArchive.AddResourceFile | tools/rc/ResourceCompiler.cpp:430-469 | The file and, by the slash loop, its directories, or a refusal that changes nothing |
| Archive.ZipArchive.AddDir | tools/rc/ResourceCompiler.cpp:471-484 | A directory is written once |
| Archive.ZipArchive.AddResourcesFromArchive | tools/rc/ResourceCompiler.cpp:514-569 | Every entry merged in order; refused at a recorded name or a bad manifest, and what is then left behind |
| Archive.RefusedMerge | tools/rc/ResourceCompiler.cpp:514-569 | A refused merge has written exactly what the entries before the refused one amount to, and recorded its name besides |
| Archive.ResourceAdded | tools/rc/ResourceCompiler.cpp:430-469 | Records exactly the file and every prefix of it that ends in a slash, and keeps the archive good |
| Archive.ManifestAddedExactly | tools/rc/ResourceCompiler.cpp:410-428 | Keeps it good if and only if the directories that the bundle's own name goes through are there |
| Archive.MergedIsGood | tools/rc/ResourceCompiler.cpp:514-569 | Merging an archive whose files have their directories keeps it good |
| Archive.TwiceExactly | tools/rc/ResourceCompiler.cpp:399-484 | In a good archive a name is written twice if and only if some file's name ends in a slash |
| Archive.ArchivesExactly | tools/rc/ResourceCompiler.cpp:383-569 | Over every successful run, whatever is added or merged: the entries are exactly the files and directories that the operations name, each once; whole if and only if the files' directories are among them, no entry twice if and only if no file has a directory's name |
| Archive.ArchivesAreWhole | tools/rc/ResourceCompiler.cpp:383-569 | For a slash-free bundle name and closed archives: all directories are entries, and no entry is written twice if and only if every resource has a proper name |
| Entries.ResourceIsNamed | tools/rc/ResourceCompiler.cpp:430-469 | A resource is recorded as bundle, slash and name, a manifest under what follows the last separator, with the directories that this name goes through; when it is refused |
| Entries.ManifestIsNamed | tools/rc/ResourceCompiler.cpp:410-428 | The aggregated manifest is `manifest.json` in the bundle's directory; when it is refused |
| Entries.NamesStandInTheBundle | tools/rc/ResourceCompiler.cpp:383-469 | Over every successful run without merged archives every file stands in the bundle's directory |
| Entries.NamesManifestExactly | tools/rc/ResourceCompiler.cpp:514-569 | A merged name is checked as a manifest exactly if its only slash stands in front of `manifest.json` |
| Entries.MergedFileIsChecked | tools/rc/ResourceCompiler.cpp:514-569 | A merged file is refused exactly if its name is recorded or it is such a manifest and does not parse; otherwise it is written last |
| Entries.MergedDirectoryIsWrittenOnce | tools/rc/ResourceCompiler.cpp:514-569 | A merged directory is written unless it is there, and an entry without a name is passed over |
| Entries.MergedInOrder | tools/rc/ResourceCompiler.cpp:514-569 | Merging is one entry after the other, in the order of the archive |

## Left out

- AgreementRuns.NextConsistent: a step that creates a PID while news of its earlier object is on its way is excluded, because it can break the agreement; `LastWords` and `LaterWrites` say exactly when.
- AgreementRuns.QuietRunConsistent: the same.
- AgreementRuns.EventualAgreement: the condition on runs is sufficient, not necessary: an early creation may do no harm. The exact conditions are `LastWords.EarlyCreationExactly` and `LaterWrites.CreationLosesNothingExactly`, each for one service and one creation.
- LaterWrites.LaterWritesArriveExactly: a `Remove` takes its object's lock and erases the PID in one step of the engine. It is not told apart whether a `Remove` waiting for the repository already holds that lock; if it does, an `Update` stalled on the same object, meanwhile replaced or taken out by a batch, can no longer announce.
- LaterWrites.MissedWrite: the same.
- LaterWrites.CreationLosesNothingExactly: the same.
- Restarts.BatchLosesNothingExactly: the same.
- Restarts.BatchAgreesExactly: the same, and for batches that make the PID's object anew; one that only writes to a live object is an ordinary step of `AgreementRuns`.
- Schedules.WordsAtRestExactly: the same as for `LaterWrites.LaterWritesArriveExactly`.
- An `Update` keeps its object locked from reading the count until it has posted; the engine lets other threads in between: more interleavings than the code has.
- FactoryIndex.InstanceLookupNeverFails: for runs whose factory PIDs have no `~`; `FactoryIndex.LookupFailsExactly` shows that others fail.
- ConfigurationAdmin.Configuration.Update: proved as an uninterrupted call; its two critical sections interleave with other threads in `Engine`.
- ConfigurationAdmin.Configuration.UpdateIfDifferent: the same.
- ConfigurationAdmin.Configuration.Remove: the same.
- ConfigurationAdmin.Admin.AddConfigurations: the same for the section, the invalidations and the posts.
- ConfigurationAdmin.Admin.RemoveConfigurations: the same.
- ConfigurationAdmin.Admin.ListConfigurations: the LDAP filter is not modelled.
- ConfigurationAdmin.Admin.CreateFactoryConfiguration: the random names are a parameter; nothing is said about how many draws it takes.
- LockOrder.BodiesDisciplined: the lock sequences are read off the source, procedure by procedure; they are not derived from the methods of `ConfigurationAdmin`.
- Numerals.LexicalCast: negative values and values above 2^31-1 read outside the digit table, which the language leaves undefined; `Numerals.TableExactly` says so and the printers exclude them.
- Numerals.LexicalCastHex: the same.
- HttpOutput.HttpOutputStreamBuffer.constructor: buffers above 2^31-2 bytes, whose size does not fit the printers, are excluded.
- HttpOutput.HttpServletResponse.Commit: writing the head always succeeds.
- Archive.ArchivesAreWhole: the special case of slash-free bundle names and closed archives; `Archive.ArchivesExactly` covers all.
- The two reads of `AddingService` are one step of the engine, and so is its post; the code takes the object's lock twice and posts later.
- The worker of the engine may be interrupted between reading and telling by steps that the admin's service mutex would delay: more interleavings than the code has.
- Addresses are never reused as identities of objects, and change counts and future ids do not wrap around.
- An external asynchronous work service may run tasks on several threads; the engine has the single worker of the fallback pool.
- Exceptions thrown by services' callbacks, and the rescue of those calls; callbacks are total.
- The shutdown of the admin, and the time between its steps.
- Two threads that start the same bundle at once; the activator handles one event at a time.
- Waking of waiting threads: `LockOrder` says that some thread can go on, not which one does.
- Listeners, the service registry, bundle contexts and logging.
- The text of the HTTP head: the headers are recorded, their rendering is not part of this model.
- Failed network writes: `Connection.Write` appends everything.
- `ResetBuffer`, `SetBufferSize` and replacing the stream buffer by the servlet's own.
- Chunk extensions, trailer fields and upper-case digits, which this program never sends, are rejected by the decoder.
- What a resolver puts in for a tag, which is an arbitrary function here, and Mustache itself.
- The parsing and printing of JSON, and duplicate keys inside one manifest, which the parser refuses earlier.
- Reading, compressing and writing zip files; names cut off at the library's limit.
- Declarative Services, the web console's plugins, the shell, servlet dispatch and the command lines.
