# Codescribe protocols and validators, in Dafny

This project models the parts of Codescribe that keep state on disk or in memory across crashes,
concurrent processes and retries, and the checks whose arithmetic or string rewriting is easy to get
wrong. Code that changes things step by step is modelled by methods and classes with the same
fields, loops and order of writes; what those methods compute is tied to functions, and the lemmas
speak about the functions and about all runs.

| file | what it models |
|---|---|
| `WakeLedger.dfy`, `WakeProtocol.dfy` | the announced ledger of one lease: waiter pass, tool-call probe, announcer, and every interleaving of them with arrivals, ACKs and deaths |
| `EventStore.dfy`, `Events.dfy`, `Pump.dfy` | webhook subscriptions over SQLite rows and an external key store without a joint transaction; the notification pump |
| `ReleaseJournal.dfy` | the journalled multi-file rewrite of the release script and its recovery |
| `WeightLayout.dfy`, `WeightNames.dfy`, `WeightSchema.dfy`, `WeightCache.dfy` | Whisper weights: header tiling, name rewriting, tensor schema, and the memory of validated bundles |
| `Requests.dfy` | effects behind a request id, launched at most once |
| `TurnRegistry.dfy` | the registry of cancellable agent turns |
| `Dedupe.dfy` | folding identical recordings onto one inode |
| `Structure.dfy` | statically false blocks found with a brace stack; whitespace collapse that keeps tokens |
| `Worksheet.dfy` | the translators' worksheet: slots, building a localization, import and export |
| `Wrappers.dfy`, `Faults.dfy`, `Division.dfy` | optional values, the outcomes of calls into the outside world, and quotients, shared by the others |
| `EditDistance.dfy`, `Sparkline.dfy` | the one-row edit distance; the max-resampled sparkline |

How the outside world enters: a store call, a write, a post or a system call returns an outcome
(done, raised, crashed) chosen freely, and a call that did not come back done may still have taken
effect; only a refusal because a name exists is taken at its word. Each store, disk and directory also
says whether its world is calm: in a calm one no call fails, no process dies and an endpoint answers its
challenge, and the contracts say which operations then succeed. Clocks are non-decreasing readings, random references and tokens are fresh values, and a
SHA-256 digest stands for the bytes it was taken of.

Four results differ from what a reader might expect of the code:

* **The validation memory of Whisper bundles.** Its comment says any added, removed or rewritten
  file changes the identity. That is not enough when a file arrives during a validation and is
  removed again: the bundle is then remembered under the identity it had without the file.
  `WeightCache.RemovalIsNotSure` gives such a history, in which no file's own identity recurs.
  `WeightCache.SureExactlyWithoutReturns` gives the exact condition on what becomes of a directory,
  over all runs of overlapping calls, and `WeightCache.AddsAndRewritesAreSure` shows that adding and
  rewriting files meets it. These speak of answers given while the directory still has the identity
  the call took. Of a call that an edit overtakes between taking the identity and the lookup,
  `WeightCache.OvertakenCallsAreSureOfNothing` says that its answer is right for what the identity
  was taken of only where the files never change at all.
* **The announced ledger.** Its comments say a delivery is announced once, by the waiter or by the
  probe. That fails when a waiter writes the ledger without having read a delivery that is still
  pending: its mailbox read was refused, or the delivery is a quiet one, which only the probe reads.
  `WakeProtocol.WaiterCommitKeepsInvExactly` gives the exact condition under which a pass keeps the
  books, `WakeProtocol.LossMeansTwice` shows that any other pass is one probe away from a second
  notice, `WakeProtocol.NoticedTwice` gives both runs from an empty ledger, and
  `WakeProtocol.PlainRunsAreCareful` shows that no other kind of run is affected.
* **The generated test weights.** A generated file is accepted exactly when no schema tensor is empty
  (`WeightSchema.Generate`): the writer happily writes zero-sized tensors, the reader refuses them.
* **The duplicate-name check** in the weights validation never refuses a file that the schema check
  would accept (`WeightSchema.Validate`).

## Model

| member | source | states |
|---|---|---|
| EditDistance.Compute | scripts/bench-qwen-local-helper.py:31-40 | the loop over one row returns the least cost of any edit script between two lists of any length |
| EditDistance.LeastCostStep | scripts/bench-qwen-local-helper.py:35-38 | the cell rule is right: least costs of the three smaller problems give the least cost of the larger one |
| EditDistance.LeastCostIsSymmetric | scripts/bench-qwen-local-helper.py:31-40 | the distance does not depend on which list is called left |
| EditDistance.LeastCostTriangle | scripts/bench-qwen-local-helper.py:31-40 | going through a third list is never shorter |
| EditDistance.LeastCostZeroMeansEqual | scripts/bench-qwen-local-helper.py:31-40 | distance zero exactly between equal lists |
| EditDistance.LeastCostIsBounded | scripts/bench-qwen-local-helper.py:31-40 | it lies between the difference of the lengths and the longer of them |
| EditDistance.OneChangeCostsOne | scripts/bench-qwen-local-helper.py:35-38 | lists that differ in one word are at distance one |
| WakeLedger.Waiter.constructor | scripts/bus-mcp.py:546-547 | a waiter starts from the record: its entries, their stamps (or the reading's own time where a file has none), and the reminder marks still in force, entry by entry |
| WakeLedger.Waiter.RunPass | scripts/bus-mcp.py:573-628 | one locked pass. Over record and memory merged: an unwatched pass with an unread id not announced names all of those; otherwise a new problem is told; otherwise, where some unread id was announced 600 seconds ago or longer and never reminded, exactly those are reminded; otherwise it ends with the wait or goes on. Afterwards exactly what was read is announced, with its old stamp, and the record is written exactly with a notice |
| WakeLedger.Waiter.MergeProbed | scripts/bus-mcp.py:575-579 | after the merge each entry has the earlier of its two stamps and either side's reminder mark |
| WakeLedger.ProbePass | scripts/bus-mcp.py:667-686 | a probe surfaces, in order, exactly the unread ids the record does not hold, and then records every unread id: old stamps and marks stay, new entries carry the time of the probe |
| WakeLedger.Announce | scripts/bus-mcp.py:193-200 | an until-event task adds exactly its ids to the record; every entry that was there keeps its stamp and its mark, and the new ones carry the time of the announcement |
| WakeLedger.FreshSelects | scripts/bus-mcp.py:585 | news are exactly the unread ids that are not announced, each once and in their order |
| WakeLedger.DueSelects | scripts/bus-mcp.py:589-591 | reminders are exactly the unread ids announced long enough ago and not reminded yet, each once and in their order |
| WakeLedger.PassKeepsItsPromises | scripts/bus-mcp.py:575-628 | every pass merges by the earlier stamp, gives the notice in the order news, new problem, reminder, end of the wait, remembers exactly what it read, and leaves the record alone without a notice |
| WakeProtocol.StepKeepsInv | scripts/bus-mcp.py:562-628 | every step of waiter, probe, announcer, mailbox or clock keeps the books, unless it is a pass that writes while it overlooks a pending delivery: each recorded entry that is still pending stays, with its stamp no later and its mark |
| WakeProtocol.WaiterKeepsBooks | scripts/bus-mcp.py:575-628 | a waiter's rewrite from its own memory loses no pending entry it got to read, although probes and tasks wrote in between |
| WakeProtocol.WaiterCommitKeepsInvExactly | scripts/bus-mcp.py:567-628 | a pass of the waiter keeps the books exactly when it does not write the ledger while it overlooks a recorded delivery that is still pending |
| WakeProtocol.OnlyQuietAreOverlooked | scripts/bus-mcp.py:562-572 | a pass whose mailbox read succeeds overlooks only quiet deliveries |
| WakeProtocol.PlainRunsAreCareful | scripts/bus-mcp.py:562-628 | without refused reads and quiet deliveries no pass of any run does so |
| WakeProtocol.LossMeansTwice | scripts/bus-mcp.py:571-597 | after a pass that does, the next probe surfaces the overlooked delivery a second time |
| WakeProtocol.NoticedTwice | scripts/bus-mcp.py:567-597 | two runs from an empty ledger that surface one delivery twice: by a refused read, and by a quiet delivery |
| WakeProtocol.ProbeCommitKeepsInv | scripts/bus-mcp.py:667-686 | a probe between two passes of a waiter keeps the invariant |
| WakeProtocol.EachDeliveryIsNoticedOnce | scripts/bus-mcp.py:562-628 | over every run without such a pass waiter and probe together surface a delivery at most once, and it is reminded at most once, REMIND_SECONDS or more after its first stamp |
| WakeProtocol.UnwatchedPassLeavesNothingUnannounced | scripts/bus-mcp.py:592-597 | over every run, after a pass no task watches every delivery its mailbox read returned is in the record: all that were pending and not quiet, unless the read was refused |
| WakeProtocol.NewsIsSurfaced | scripts/bus-mcp.py:585 | over every run, an unwatched pass surfaces each delivery it reads that the record does not hold |
| WakeProtocol.OverdueIsReminded | scripts/bus-mcp.py:589-610 | over every run, an unwatched pass with no news and no new problem reminds each delivery it reads that was recorded 600 seconds ago or longer and never reminded |
| WakeProtocol.NoDeliveryIsSilenced | scripts/bus-mcp.py:186-200 | over every run an id in the record was surfaced, announced by a task, or there before the run |
| WakeProtocol.OpenEntriesOnlyGetOlder | scripts/bus-mcp.py:575-597 | a pending entry leaves the record exactly when a waiter writes without having read it; no step drops its reminder mark or moves its stamp later |
| EventStore.PutKeepsSound | scripts/bus-mcp-events.py:412-420 | a put under a fresh reference keeps both stores consistent whether or not it took effect |
| EventStore.DeleteKeepsSound | scripts/bus-mcp-events.py:226-232 | deleting a key the cleanup table names never removes a live key |
| EventStore.RetireKeepsSound | scripts/bus-mcp-events.py:210-215 | only references that no row uses are handed to the cleanup table |
| EventStore.ForgetKeepsSound | scripts/bus-mcp-events.py:252-258 | forgetting a subscription retires its keys and its deliveries together |
| EventStore.MaintainedKeepsSound | scripts/bus-mcp-events.py:299-307 | the maintenance transaction keeps the invariant for every clock reading and authorization |
| EventStore.MaintainedIsCurrent | scripts/bus-mcp-events.py:299-307 | what maintenance leaves is unexpired, and an older key remains only inside its rotation window |
| EventStore.RenewedKeepsSound | scripts/bus-mcp-events.py:407-426 | a renewal with the same key keeps the invariant |
| EventStore.InstalledKeepsSound | scripts/bus-mcp-events.py:407-426 | a row naming a key just written keeps it: the replaced key stays live, dated, for its window, and the one before it is retired |
| EventStore.CommitProgresses | scripts/bus-mcp-events.py:487-515 | a committed transaction leaves settled deliveries and their posts as they are, unless it forgets their subscription, and dates each key it replaces |
| EventStore.ProgressIsTransitive | scripts/bus-mcp-events.py:193-520 | so this holds between any two moments of a run |
| EventStore.AttemptedKeepsSound | scripts/bus-mcp-events.py:491-503 | the persisted attempt leaves room in the row's history for exactly the post it announces |
| EventStore.PostedKeepsSound | scripts/bus-mcp-events.py:497-507 | that post keeps the history: same body, later attempt, spaced by the back-off, verified keys, a replaced key only inside its window |
| EventStore.SettledKeepsSound | scripts/bus-mcp-events.py:508-515 | recording the answer keeps the invariant |
| EventStore.AtMostThreePosts | scripts/bus-mcp-events.py:487-515 | between two forgets an event is posted at most three times, always with the first body, the second 2 seconds or more after the first and the third 4 after the second |
| EventStore.SettledIsFinal | scripts/bus-mcp-events.py:491-515 | over a run an accepted or failed delivery stays as it is and is not posted again, until its subscription is forgotten |
| EventStore.SettledStays | scripts/bus-mcp-events.py:491-515 | after any call but subscribe, a settled delivery that is still there is as it was |
| EventStore.ReplacedKeySignsForTheWindow | scripts/bus-mcp-events.py:405-411 | over a run a replaced key signs no post 60 seconds or more after its replacement |
| EventStore.LiveKeysAreKept | scripts/bus-mcp-events.py:217-235 | every key a row names is in the key store and not in the cleanup table |
| EventStore.SigningKeysAreVerified | scripts/bus-mcp-events.py:497-499 | one or two keys sign, each has answered a challenge at the row's URL, and the second was replaced less than 60 seconds ago |
| Events.KeyStore.Put | scripts/bus-mcp-events.py:106-107 | a put stores the secret, and may have done so when it reports failure |
| Events.KeyStore.Delete | scripts/bus-mcp-events.py:114-115 | a delete removes the secret, and may have done so when it reports failure |
| Events.Connection.Reconcile | scripts/bus-mcp-events.py:217-235 | when it completes, the store's namespace equals the live references and the cleanup table is empty; it never touches a live key |
| Events.Connection.Maintenance | scripts/bus-mcp-events.py:282-313 | when it completes, exactly the rows, deliveries and keys that are over are gone from both stores; without authorization every row and key is gone and the caller is refused; otherwise the rows are those before or after the one transaction, and where nothing fails it does not end that way |
| Events.Connection.Subscribe | scripts/bus-mcp-events.py:377-435 | a subscription ends with one row, its key stored and challenged in this call unless the same key was proven for the row and that has not lapsed; its lifetime is the one asked for up to a day, an hour by default, and a replaced key is dated for its window; whatever the outcome, a callback that is not over keeps its row, deliveries stay as they are, and a key it replaced signs on for 60 seconds; where nothing fails it succeeds if authorized, with a lifetime of a second or more and no live callback elsewhere |
| Events.Connection.Prove | scripts/bus-mcp-events.py:393-408 | a key counts as proven only by a challenge answered in this call, or by one answered earlier for the same key that has not lapsed; and as the same only if the store holds it |
| Events.Connection.PutNew | scripts/bus-mcp-events.py:412-420 | a failed put leaves no row naming its reference, and leaves the reference in the cleanup table unless that write fails too |
| Events.Connection.Install | scripts/bus-mcp-events.py:412-433 | the key is in the store before a row names it; after a failed write no row names it, and it is erased or in the cleanup table unless that write fails too |
| Events.Connection.Unsubscribe | scripts/bus-mcp-events.py:437-446 | afterwards there is no row and no key |
| Events.Connection.Ready | scripts/bus-mcp-events.py:448-460 | true exactly when a subscription is in force and its delivery was never tried, or is in retry with its back-off of 2 or 4 seconds over |
| Events.Connection.DeliverTo | scripts/bus-mcp-events.py:484-518 | the attempt is committed before the one post it allows; an answer of 200 to 299 leaves the row accepted, 0, 429 and 500 to 599 leave it in retry before the third attempt and failed on it, 410 forgets the subscription, anything else leaves it failed; the post is signed with the row's key, and with the former one within its window |
| Events.Connection.Deliver | scripts/bus-mcp-events.py:462-520 | one attempt for each subscription in force whose delivery is due, the row recorded as its answer calls for (accepted on 200 to 299, retry or failed on 0, 429 and 500 to 599, gone on 410, failed otherwise), all else left alone; whatever the outcome settled deliveries stay, and where nothing fails only authorization decides |
| Events.Serve | scripts/bus-mcp-events.py:193-520 | any calls in any order under any faults, with a new process after each crash, keep the invariant of both stores, leave settled deliveries settled and date every replaced key, from the first moment to the last; a subscription in force in the end, and never forgotten, was in force at the start |
| Pump.VisitRow | scripts/bus-mcp-runtime.py:191-197 | a row is attempted exactly when it counts against the batch, and a row never attempted is not skipped |
| Pump.Tick | scripts/bus-mcp-runtime.py:184-198 | a tick attempts at most `batch` rows in mailbox order and passes an untried row over only with its batch spent ahead of it |
| Pump.PassingOverCostsABatch | scripts/bus-mcp-runtime.py:191-197 | each tick that passes a delivery over takes `batch` off the attempts left ahead of it |
| Pump.NoStarvation | scripts/bus-mcp-runtime.py:184-198 | a delivery with k events ever ahead of it is passed over by at most 3k / batch ticks |
| Pump.RunTicks | scripts/bus-mcp-runtime.py:184-198 | ticks over a changing mailbox among any other calls, renewals, rotations and timer runs included, under any faults and with new processes after crashes: where nothing fails and each tick is authorized all of them complete, and once more than 3k / batch have completed the delivery has been attempted, if its subscription was never forgotten and is in force |
| Pump.PostsOfDeliveries | scripts/bus-mcp-events.py:487-503 | n deliveries cost at most 3n posts |
| ReleaseJournal.EntriesDescribe | scripts/release-version.py:146-148 | the journal lists exactly the files whose bytes a change would alter, each with its old and new bytes and its own mode modulo 512, or 420 where it is new |
| ReleaseJournal.Disk.Recover | scripts/release-version.py:120-139 | recovery ends with all listed files old, bytes and listed mode, or all new and untouched; a file that changed was new before; it refuses, changes nothing and keeps the journal exactly when a listed file stands at neither version; where nothing fails it completes otherwise |
| ReleaseJournal.Disk.RollBack | scripts/release-version.py:129-138 | files are put back one by one, and a death in between leaves a set recovery still recognizes |
| ReleaseJournal.Disk.Transact | scripts/release-version.py:142-161 | without a journal left the rewrite happened as a whole or not at all: applied, each changed file has its new bytes and its old permission bits, a new one 0o644, and every other file is untouched; undone, each has its old bytes and its old mode or that mode's permission bits. With a journal left every file is at one of its two versions. It refuses exactly when an expected file differs, and where nothing fails it completes otherwise |
| ReleaseJournal.BetweenIsRecognized | scripts/release-version.py:124-128 | whatever a crashed rewrite leaves is recognized by the validation before recovery |
| ReleaseJournal.RestoringStaysBetween | scripts/release-version.py:129-138 | a recovery that crashes leaves a state the next one can start from |
| ReleaseJournal.RewriteAndRecover | scripts/release-version.py:120-161 | a rewrite that may die anywhere and any number of recoveries that may die anywhere: once the journal is gone all files are old or all are new, modes included, and no other file changed; where nothing fails and nothing was refused all are new |
| WeightLayout.ElementCount | core/whisper_weights.rs:666-673 | the overflow-checked product exists exactly when no prefix overflows, and is positive exactly when the true product fits in 64 bits and is not zero |
| WeightLayout.CheckSize | core/whisper_weights.rs:632-693 | alignment heads pass exactly as I64 with eight bytes an element, any other tensor as F16 with two or F32 with four, and no `.scales` or `.biases` at all; the range has exactly that length and nothing overflows |
| WeightLayout.CursorWalk | core/whisper_weights.rs:705-717 | the cursor walk accepts exactly the chains from 0 to the data length |
| WeightLayout.SortedChainIsExactCover | core/whisper_weights.rs:704-717 | sorted by start, ranges chain exactly when every data byte is in exactly one of them |
| WeightLayout.ReadShapes | core/whisper_weights.rs:622-718 | a header is accepted exactly when its tensors partition the data into pieces of the right size, and the shapes are its own |
| WeightLayout.AcceptedByteHasOneTensor | core/whisper_weights.rs:704-717 | each data byte of an accepted file belongs to exactly one tensor |
| WeightLayout.PartitionIsAccepted | core/whisper_weights.rs:704-717 | well sized tensors that hold each data byte once are accepted, in whatever order they are listed |
| WeightLayout.WriteLayout | core/whisper_weights.rs:928-949 | the generator lays its tensors end to end, two bytes an element, and does so exactly when each count and the whole payload fit in 64 bits |
| WeightLayout.GeneratedIsAcceptable | core/whisper_weights.rs:924-955 | such a layout is accepted exactly when it has tensors and none of them is empty |
| WeightNames.ReplaceSplits | core/whisper_weights.rs:798-812 | replacing a substring works on two halves separately where no occurrence can straddle the seam |
| WeightNames.ApplySplits | core/whisper_weights.rs:797-812 | so do all the rules in their order, across a seam no pattern can straddle |
| WeightNames.PartIsMapped | core/whisper_weights.rs:798-812 | what the rules make of each part of a layer's tensor name |
| WeightNames.StemIsMapped | core/whisper_weights.rs:798-812 | what they make of each global tensor name |
| WeightNames.NameIsMapped | core/whisper_weights.rs:796-820 | the runtime name of every tensor name of the schema, for every layer number |
| WeightNames.LayerNamesAreMapped | core/whisper_weights.rs:797-814 | every layer tensor under its full name and its runtime name, for both sides and every layer number |
| WeightNames.GlobalNamesAreMapped | core/whisper_weights.rs:797-819 | and every other tensor, the positional embedding among them |
| WeightNames.DecimalHasValue | core/whisper_weights.rs:908-918 | a decimal layer number determines the layer |
| WeightNames.MappedNamesAreDistinct | core/whisper_weights.rs:796-820 | the mapping is injective on the schema's names, for every number of layers |
| WeightNames.NamesAreDistinct | core/whisper_weights.rs:822-921 | different tensors of the schema have different names |
| WeightSchema.Schema.Add | core/whisper_weights.rs:825-827 | an added tensor is new to the map and has its schema shape |
| WeightSchema.Schema.AddAttention | core/whisper_weights.rs:829-853 | an attention block adds its seven tensors |
| WeightSchema.Schema.AddBlockTail | core/whisper_weights.rs:855-877 | a block tail adds its eight tensors |
| WeightSchema.ElementsWithout | core/whisper_weights.rs:929-947 | the element count of the schema does not depend on the order of its tensors |
| WeightSchema.ExpectedShapes | core/whisper_weights.rs:822-921 | the schema has exactly 10 + 15 audio layers + 24 text layers names, each with its shape, and a closed form for its elements; none on overflow of the feed-forward width |
| WeightSchema.SchemaIsSpelled | core/whisper_weights.rs:822-921 | every tensor under its full name with its dimensions written out, for every number of layers: four square projections an attention with no bias for the key, and a feed-forward part from d to 4d and back |
| WeightSchema.ValidateShapes | core/whisper_weights.rs:731-767 | accepted are exactly the schema's tensors at their shapes, with alignment heads within their bound if there are any |
| WeightSchema.FittingIsSpelled | core/whisper_weights.rs:731-767 | an accepted map has all of these, and its alignment heads, if any, are between one pair and as many as the decoder has heads |
| WeightSchema.OnlyHeadsMayBeAdded | core/whisper_weights.rs:736-767 | to an accepted map exactly alignment heads within their bound may be added |
| WeightSchema.NothingMayBeMissing | core/whisper_weights.rs:753-767 | and no other tensor may be taken away or given another shape |
| WeightSchema.ValidateUnique | core/whisper_weights.rs:769-789 | passes exactly when no two names other than alignment heads meet after rewriting |
| WeightSchema.FittingNamesNeverCollide | core/whisper_weights.rs:731-789 | names that fit the schema never meet after rewriting |
| WeightSchema.Validate | core/whisper_weights.rs:721-729 | the whole check accepts exactly the tilings that fit the schema; the uniqueness check in the middle refuses nothing more |
| WeightSchema.Generate | core/whisper_weights.rs:924-955 | a file is written exactly when the feed-forward width and the payload, in closed form, fit in 64 bits; it passes the whole check exactly when state width, mels, vocabulary and text context are all positive |
| WeightCache.ValidatedBundles.Validate | core/whisper_weights.rs:54-67 | a bundle passes from memory or by validation, and other calls may change the memory between its two locked sections; only a pass with a readable identity is remembered, under the identity taken before |
| WeightCache.LockedSectionsAreSteps | core/whisper_weights.rs:56-65 | the two locked sections are two steps of the run: a lookup answers exactly when the step ends the call with a hit, and remembering leaves the identities that the insertion leaves |
| WeightCache.NextKeepsInv | core/whisper_weights.rs:54-67 | every step of any number of overlapping calls keeps: each remembered identity is backed by a validation that began with it and read and accepted files after that |
| WeightCache.UndisturbedIsSure | core/whisper_weights.rs:54-67 | over every run, where no identity returns after the files looked for were different, each answer from memory is what the validator would say |
| WeightCache.DisturbedIsNotSure | core/whisper_weights.rs:54-67 | where one does return, there is a validator and a run that ends in a wrong answer |
| WeightCache.SureExactlyWithoutReturns | core/whisper_weights.rs:54-67 | so answers from memory are right over all runs and validators exactly under that condition |
| WeightCache.AddsAndRewritesAreSure | core/whisper_weights.rs:54-67 | adding files or writing them anew, also during a validation, keeps answers from memory right |
| WeightCache.RemovalIsNotSure | core/whisper_weights.rs:47-53 | removal does not: a history without any recurring file identity in which memory accepts what the validator would refuse |
| WeightCache.OvertakenCallsAreSureOfNothing | core/whisper_weights.rs:54-67 | where an edit falls between taking the identity and the lookup, answers are right for what it was taken of only if the files never change |
| Requests.StepKeepsLocks | scripts/bus-mcp-agent.py:425-426 | every step keeps one holder for each held lock |
| Requests.StepKeepsLaunches | scripts/bus-mcp-agent.py:427-446 | every step keeps: one launch a key, with the content of its receipt, and none before the receipt |
| Requests.StepKeepsReceipts | scripts/bus-mcp-agent.py:432-446 | a receipt is never removed, never changes content, and never changes once settled |
| Requests.EffectsAreLaunchedAtMostOnce | scripts/bus-mcp-agent.py:420-446 | over all callers, repeats and crashes an effect is launched at most once for an operation and request id |
| Requests.AnswersAgree | scripts/bus-mcp-agent.py:427-431 | answers for one request id are the stored receipt; other content is refused |
| Requests.AbandonedIsNeverReplayed | scripts/bus-mcp-agent.py:461-478 | an uncertain receipt whose author is gone stays as it is for ever and its effect is not launched again |
| Requests.CrashAbandons | scripts/bus-mcp-agent.py:432-446 | a crash at any moment after the mark abandons the receipt and changes nothing on disk |
| Requests.ReceiptStore.RequestOnce | scripts/bus-mcp-agent.py:420-446 | one call under its lock: a known id launches and changes nothing and is told the stored receipt, or refused exactly when it is not a spoken call and its content differs; a new id is launched once, after the uncertain receipt, and a call that lives to its end stores and returns the outcome; one that dies leaves the receipt uncertain |
| Requests.RequestOnceIsARun | scripts/bus-mcp-agent.py:420-446 | that call is a run of the step protocol, with the same disk, launches and replies |
| TurnRegistry.Registry.Push | app/agent_delivery.rs:115-120 | a registration appends one unflagged entry to its thread |
| TurnRegistry.Registry.Cancel | app/agent_delivery.rs:131-140 | every entry of the thread is flagged, and the answer says whether there was one |
| TurnRegistry.Registry.Deregister | app/agent_delivery.rs:146-160 | the entry is removed, an emptied list with it, and its flag returned |
| TurnRegistry.StepKeepsInv | app/agent_delivery.rs:109-208 | in every interleaving the entries of a thread are exactly those of its open turns, flagged exactly when a stop came since registration; no empty list is kept |
| TurnRegistry.StopAnswerIsTrue | app/agent_delivery.rs:131-140 | a stop answers true exactly when its thread has an open turn |
| TurnRegistry.FinishAnswerIsTrue | app/agent_delivery.rs:193-200 | a finish answers true exactly when it is the first and a stop took effect since the registration |
| TurnRegistry.EveryAnswerIsTrue | app/agent_delivery.rs:109-208 | over every run all logged answers are true in that sense, and entries and open turns correspond by unique token |
| Dedupe.Directory.Replace | scripts/sessions-dedupe.py:256 | rename moves the name, and does nothing at all for two names of one inode |
| Dedupe.Scan | scripts/sessions-dedupe.py:142-185 | each candidate name is listed once, with the size, time and inode of its file; the protected name and names with the temporary prefix are not |
| Dedupe.MakeGroup | scripts/sessions-dedupe.py:209-240 | a group names its oldest member canonical, and of members of one age the one whose name sorts first; every other member is a duplicate, linked already exactly where it has that inode; a run gives up each foreign inode once, at the size of the content |
| Dedupe.FindGroups | scripts/sessions-dedupe.py:188-242 | exactly one group for each content that two or more large enough candidates have, with all of them as members, made as above |
| Dedupe.LinkDuplicate | scripts/sessions-dedupe.py:245-262 | done, the duplicate leads to the canonical inode and no temporary name is left; otherwise at most that move was made and temporary names may be left, as a failed call may have taken effect |
| Dedupe.ApplyGroups | scripts/sessions-dedupe.py:286-293 | at whatever point the process dies or a call fails each name leads to its original bytes; at the end the moves are made and every action is updated; where nothing fails, or nothing is pending, it comes to its end |
| Dedupe.FoundIsPlanned | scripts/sessions-dedupe.py:188-242 | groups found in a directory never share a name, and pending duplicates never share the canonical inode |
| Dedupe.MembersMeet | scripts/sessions-dedupe.py:286-293 | after a run every member of a group has the canonical inode |
| Dedupe.SecondRunMovesNothing | scripts/sessions-dedupe.py:286-293 | a second run finds every duplicate linked already |
| Dedupe.StoredBytesFall | scripts/sessions-dedupe.py:234-238 | stored bytes fall by exactly the sum of what the groups call reclaimable, if no outside name shares an inode that is given up |
| Dedupe.Run | scripts/sessions-dedupe.py:400-450 | listing, grouping and linking together: bytes kept at every point, the same names at the end, and the reclaimed sum |
| Dedupe.RunTwice | scripts/sessions-dedupe.py:400-450 | a run after a whole one comes to its end and leaves the names exactly as the first one left them |
| Structure.FalseBlockRanges | scripts/verify-acoustic-throne-structure.py:1400-1427 | the stack finds exactly the braces whose header is provably false, each with its own closer, in closing order |
| Structure.MatchedNest | scripts/verify-acoustic-throne-structure.py:1400-1427 | matched blocks are nested or disjoint |
| Structure.MatchedOnce | scripts/verify-acoustic-throne-structure.py:1400-1427 | a brace has one partner |
| Structure.MatchedIsBalanced | scripts/verify-acoustic-throne-structure.py:1400-1427 | braces match exactly when the text between them has as many openers as closers and no prefix of it has fewer |
| Structure.ClosingMatches | scripts/verify-acoustic-throne-structure.py:1423-1426 | a closer matches the top of the stack and no other open brace |
| Structure.HeaderIsLongest | scripts/verify-acoustic-throne-structure.py:1406-1411 | a header is the longest stretch before its brace without `;`, `{` or `}` |
| Structure.CollapseCodeWhitespace | scripts/verify-acoustic-throne-structure.py:1284-1305 | the index loop computes the collapse |
| Structure.CollapseKeepsTokens | scripts/verify-acoustic-throne-structure.py:1284-1305 | no identifier or punctuation token is lost, joined or split |
| Structure.CollapseKeepsCharacters | scripts/verify-acoustic-throne-structure.py:1284-1305 | every character but layout is kept, in its order |
| Structure.CollapseOnlySeparates | scripts/verify-acoustic-throne-structure.py:1284-1305 | the layout left is single spaces, each between two identifier characters |
| Structure.CollapseDecidesTokens | scripts/verify-acoustic-throne-structure.py:1284-1305 | two texts collapse to one exactly when they have the same tokens |
| Structure.CollapseIsIdempotent | scripts/verify-acoustic-throne-structure.py:1284-1305 | collapsing again changes nothing |
| Worksheet.BuiltIsHeld | scripts/l10n-sheet.py:122-179 | what is built from texts for exactly the slots owed is held again text by text, for plain, plural and substitution keys |
| Worksheet.OwedShowsEnglish | scripts/l10n-sheet.py:122-139 | a key owes itself where it has no English, a row a form of a plural, and a row for a sentence besides those of its substitutions; each row shows the English of its form, or of `other` |
| Worksheet.OnlyTheseStop | scripts/l10n-sheet.py:122-139 | the tool stops exactly at a variation it does not know and at plural forms without `other` |
| Worksheet.BuiltKeepsShape | scripts/l10n-sheet.py:156-180 | what is built is a plural exactly where the English is, and has its substitutions with their arguments and specifiers |
| Worksheet.ReviewIsExact | scripts/l10n-sheet.py:245-257 | a key is missing exactly where a slot owed is not held, and done exactly where it is not missing and every unit is translated |
| Worksheet.GroupRows | scripts/l10n-sheet.py:373-405 | rows are grouped by key, the later row of a slot counting |
| Worksheet.GivenIsLast | scripts/l10n-sheet.py:373-405 | a slot's text is that of the last row for it |
| Worksheet.ImportCatalog | scripts/l10n-sheet.py:384-452 | taken are exactly the wanted keys whose rows fill every slot owed and no other, with no blank or forbidden text, and of whose new entry the linter does not complain; they end with what the rows say, the others untouched, and they are counted; the import stops exactly at a wanted key whose slots cannot be told |
| Worksheet.AcceptedIsWhole | scripts/l10n-sheet.py:397-452 | an accepted key holds exactly the texts given, one for each slot owed, none blank or forbidden, in the shape of the English; the linter does not complain of it; its other languages are as they were |
| Worksheet.AcceptedIsReviewed | scripts/l10n-sheet.py:245-257 | an accepted key then counts as done, or as a draft when imported as one |
| Worksheet.ReimportKeepsTexts | scripts/l10n-sheet.py:260-283 | importing an export back keeps every text without outer whitespace, whatever the verdict |
| Worksheet.CompleteKeyIsTaken | scripts/l10n-sheet.py:384-452 | and accepts every key that is complete and that the linter lets pass |
| Sparkline.ResampleMax | bin/codescribe.rs:1361-1383 | as many columns as asked for, each as high as the bars it stands for |
| Sparkline.ColumnShowsItsShare | bin/codescribe.rs:1361-1383 | column b of w is the highest of the n bars from b n / w up to (b + 1) n / w, or the bar it starts at where there is none between |
| Sparkline.EveryBarIsCovered | bin/codescribe.rs:1361-1383 | every bar lies in the bucket of some column, which stands at least as high, squeezed or stretched |
| Sparkline.EveryColumnIsABar | bin/codescribe.rs:1361-1383 | every column is as high as some bar |
| Sparkline.HighestIsKept | bin/codescribe.rs:1361-1383 | the highest level is the same before and after |

## Left out

Wake ledger:
- A delivery arrives once and is never pending again after its ACK. For an entry without a stamp, as older files have them, the first stamp is counted from the start of the run.
- An id counts as surfaced when the pass commits; whether the printed notice reaches the conversation is not modelled, nor are the checks that make a waiter leave, the wake lock, the remote waiters and the wording of notices.
- The bounded wait of the probe for the lock: a probe that gives up does nothing.

Events:
- One principal and one session, as the connection has them: the subscription id stands for the URL. Parameter checks, URL and address checks, signatures and the challenge exchange are one step that succeeds or raises.
- The cleanup timer is one more caller of maintenance; when it fires is not modelled. Preflight connections and the closed flag are left out.
- Rows without a stored body, from databases of an earlier version.
- The spacing of posts is measured between the clock readings on which attempts were decided.
- A delivery with a malformed timestamp aborts a tick, and the pump's stop event ends one; rows are taken as well formed and ticks as run to their end or stopped by a failure.
- Pump.RunTicks: other calls come between ticks and not between the two calls a tick makes for a row; the delivery waited for stays in the mailbox throughout.

Release journal:
- A temporary file that a crash inside the atomic write leaves behind, and other programs editing the files between the check and the write. The rewriting of version texts and the git history.

Whisper weights:
- JSON parsing, the metadata entry, the reading of the header length, the tokenizer and the mel filters. Duplicate names within one JSON object do not reach the check.
- Architecture limits are not needed: the schema and the mapping are treated for every number of layers.
- WeightCache.SureExactlyWithoutReturns: takes the identity of a directory at one moment and reads each file once; the program takes the files' metadata one after another.
- WeightLayout.WriteLayout: doubling an element count is taken to stop the writer on overflow, as it does in test builds, the only ones that have the writer.
- The identity of a file is one number; that its length, time and inode determine its bytes is assumed only where it is needed.

Requests:
- The lease check, the mailbox helper and the shape of receipts beyond content and outcome. An exception other than the listed ones leaves the receipt uncertain, as a crash does.
- The spoken call stores no content; its repeat returns the stored receipt.

Turn registry:
- The future that resolves on cancellation, and the wrap-around of the 64-bit token counter.

Dedupe:
- Read errors, which make the tool change nothing, symbolic links and directories, the in-flight check, shell renames and the report. The order of groups and of members within a listing.
- Inodes with names outside the directory.

Structure:
- The regular expression for the condition and the evaluation of constant expressions are one given verdict on a header. Comment and string removal before the collapse.

Worksheet:
- CSV and JSON reading and writing, notices and messages, the linter's rules (a given verdict), nested variations, and rows for unknown catalogs. Substitutions are taken to have names of their own.
- Worksheet.ImportCatalog: one catalog; a stop in the second leaves the first written.

Sparkline:
- Overflow of bucket times length in 64 bits.
