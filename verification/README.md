# Verified models of the lab's state-keeping code

This project models, in Dafny, the parts of the lab software that keep state across crashes, interleavings and restarts, and
proves what they keep. `dafny verify dfyconfig.toml` checks all of it.

| files | component | source |
|---|---|---|
| `CacheModel`, `CacheLedger`, `CacheWindow`, `CacheRefs`, `CacheBudget`, `CacheRuns`, `CacheSweep`, `CacheStore` | the content cache: collection, references, downloads, uploads, byte budget | `tools/ctflab_cache_gc.py`, `tools/ctflab_content_cache.py`, `tools/ctflab_remote_assets.py` |
| `Addresses`, `DependencyGraph`, `Draft`, `DraftLaws`, `DraftEffects`, `History` | the topology draft editor and its history | `gui/GuiCore.swift` |
| `OutputBuffer`, `BoundedLog` | the two stream observers | `gui/GuiCore.swift`, `tools/ctflab_bounded_log.py` |
| `Events`, `EventLaws` | the event cursor, in both of its implementations | `tools/ctflab_contract.py`, `gui/GuiCore.swift` |
| `RequestLedger`, `RequestStore`, `Connections`, `ConnectionStore` | the client's request ledger and connection records | `tools/ctflab_client_store.py` |
| `EvidenceModel`, `EvidenceStore` | the resumable evidence download | `tools/ctflab_client_evidence.py` |
| `LibraryClosure` | the dynamic library worklist | `tools/ctflab_app.py` |
| `ProfileIds`, `FreeNames` | fresh profile identifiers, and the search they share with the editor | `gui/GuiCore.swift` |
| `Basics` | result types, sums over finite maps | |

## How the protocols are modelled

The content cache, the request ledger, the connection records and the evidence download are each given twice. A **machine** has
an explicit durable state and one step per durable effect: a committed transaction, a receipt, an unlink, bytes appended to a
file, a transmission. A crash is a step of its own, possible between any two others; it drops what is not durable and nothing
else. Safety is proved of every run of the machine, of any length and any interleaving. Beside it a **class** has the source's
fields and methods. Its `Valid()` says that the present state is the one that the machine reaches by the steps taken so far, so
every history of calls, whether completed, refused or killed half way, is a run and inherits what is proved of runs. The methods'
own postconditions say what one call does: when it succeeds, exactly, and what it leaves.

An exclusive SQLite transaction (`BEGIN IMMEDIATE`) is an atomic lock with a working copy that a commit makes durable and a crash
discards. Files changed under that lock are durable at once. A created file is durable when the call that creates it returns.
What comes from outside is a parameter of the method, of arbitrary value: what the network answers, how many bytes a write
takes, when the process dies, what other processes do in between.

Programs that ignore the lock are steps of the cache machine too, and can come between any two others. Looking at a file and
acting on it are two steps in the source. They are two steps of the machine where that can be told from outside: the second look
of a collection and its unlink. Elsewhere the act itself replaces or moves the file, or only writes a receipt or a row, so that
what another program does in between leaves the same state as if it had acted just before or just after. The scan for a plan may
be disturbed while it goes on: the machine takes any ascending list of unreferenced names with file identities that have existed.

The editor, the event merge and the name searches return new values; their loops are methods with invariants, proved equal to
functions about which the lemmas speak.

## What the proofs found

* **A remote upload records its reference before its object** (`tools/ctflab_remote_assets.py:186-216`). So "every reference has
  its object" is false in general: `CacheRuns.UploadReferencePrecedesObject` is a run that shows it.
  `CacheRefs.OnlyUploadsReferenceAhead` says exactly when it stops holding: when, and only when, an upload records its own
  reference while the object is not there. `CacheRefs.ReferencesAreBacked` says what holds of every reachable state: the object is
  there, or the reference is an upload's own and its bytes are completely staged.
* **The budget can be exceeded by publishing an upload** (`tools/ctflab_content_cache.py:136-142`). Until its row is marked
  verified, a published upload is counted as an object and reserved again in full.
  `CacheRuns.PublishedUploadOverdraws` is such a run. `CacheBudget.OnlyPublishingOverdraws` says from which states this one step
  leaves the budget, and that no other step ever does; `CacheBudget.CommittedIsBounded` bounds the excess by exactly those sizes.
* **A stale plan can take a new file** (`tools/ctflab_cache_gc.py:172-173`). The second look and the unlink are two steps, and the
  unlink takes whatever has the name. `CacheRuns.PlanTakesAnother` is a run in which another program replaces the object in between.
  `CacheWindow.UnlinkTakesAnother` says that this happens if and only if a program that ignores the lock touches the name in that
  window; without such programs every unlink takes the planned file (`CacheWindow.UnlinkTakesPlanned`).
* **Two states of a partial file block a download for good** (`tools/ctflab_content_cache.py:261-298`). One is an empty file,
  left by a download that stops before its first byte, which every later attempt opens exclusively
  (`CacheRuns.EmptyPartialIsReachable`). The other is a full file with a wrong digest whose place in quarantine is taken: the
  same wrong bytes, served twice (`CacheRuns.CondemnedPartialIsReachable`). Every later attempt asks the network for nothing and
  fails. `CacheRefs.StuckIsForever` shows that no step of the cache ends either, and the contract of
  `CacheStore.ContentCache.Download` that there is no third: once admitted and correctly answered, a download succeeds, or
  clears the partial file away for the next one, or is in one of these two states.
* **Wrong bytes, served once, spoil an evidence download for good** (`tools/ctflab_client_evidence.py:120-123`). The local file
  only grows, so it can never become the original: `EvidenceLaws.WrongBytesStay`, `EvidenceLaws.WrongFileIsForever`. The contract
  of `EvidenceStore.ClientEvidence.RunDownload` gives the exact condition under which an honest server completes it.
* **An evidence file of more than 256 MiB is never verified** (`tools/ctflab_client_evidence.py:80`, `82`, `107-110`). Sizes up to
  1 GiB are accepted, but a run makes at most 8192 requests of 32768 bytes, and every run begins again at the first byte. So it
  is paused, resumed and paused for ever: the last clause of `EvidenceStore.ClientEvidence.DownloadInRuns`, and the clauses of
  `RunDownload` that a verified end needs requests for the whole file, and that with an honest server it needs nothing else.
* **The captured byte count of an overflowed output buffer depends on how the stream was cut**
  (`gui/GuiCore.swift:35-38`, `62`): it can be any number up to the limit, `OutputObserver.AnyCountIsPossible`. Everything else
  is a function of the stream.
* **Merging two pages one after the other accepts more than merging them as one**: rows that contradict rows of an earlier page
  are not seen. `EventLaws.MergeSplit` gives the exact condition.

## Model

| member | source | states |
|---|---|---|
| CacheLedger.LedgerRun | tools/ctflab_cache_gc.py:160-203 | In every run, crashes and programs that ignore the lock included: file identities are never reused, every receipt belongs to an intent, every result to an attempt, every unlink to an attempt for the same name, and no file is taken twice |
| CacheLedger.UnlinkAtMostOnce | tools/ctflab_cache_gc.py:160-178 | In every run: no operation unlinks a name twice, no file is unlinked by two operations, each unlink was of a name in the operation's durable plan, and a result says removed exactly when the operation unlinked that name |
| CacheLedger.UnlinkAfterRecords | tools/ctflab_cache_gc.py:163-173 | At every unlink in every run, the intent and the attempt are durable, there is no result, the operation has not unlinked this name before, and a file has the name |
| CacheLedger.StalePlanNeverFires | tools/ctflab_cache_gc.py:164-173 | Once the planned incarnation is gone, no later run, programs that ignore the lock included, lets this plan unlink anything of that name, even if it was downloaded again; the one exception is a plan that is between its second look and the unlink when the file goes |
| CacheWindow.StalePlanIsHarmless | tools/ctflab_cache_gc.py:31-37 | If only programs that take the lock ran until the planned incarnation was gone, that exception is excluded, whatever runs after |
| CacheWindow.UnlinkTakesPlanned | tools/ctflab_cache_gc.py:171-176 | As long as only programs that take the lock have run, every unlink took exactly the incarnation planned |
| CacheWindow.UnlinkTakesAnother | tools/ctflab_cache_gc.py:172-173 | In every run, an unlink takes another incarnation than planned if and only if a program that ignores the lock touched that name since the second look; nothing but such programs can act in between |
| CacheRuns.PlanTakesAnother | tools/ctflab_cache_gc.py:171-176 | A run in which the object is replaced between the second look and the unlink: the stale plan removes the new file and records it as removed |
| CacheLedger.PlanIsFinal | tools/ctflab_cache_gc.py:179-184 | An operation is planned once: no later run changes its plan, and every receipt it ever has is for an object of that plan, as planned |
| CacheLedger.PhasesOnlyAdvance | tools/ctflab_cache_gc.py:129-156 | Over any run a receipt's phase never goes back, and a settled one never changes |
| CacheLedger.InterruptedForever | tools/ctflab_cache_gc.py:163-172 | An attempt whose process died before the result stays unknown in every later run: never unlinked again by that operation, and the operation never reads finished |
| CacheSweep.SweepKeepsReceipts | tools/ctflab_cache_gc.py:162-163 | A pass over a plan leaves every attempt it finds, with or without its result, as it was, and the object too |
| CacheSweep.SweepSettles | tools/ctflab_cache_gc.py:168-177 | A completed pass gives every unattempted object of the plan its attempt and its result, reports it, and the object is gone exactly if the result says removed |
| CacheSweep.PassPhases | tools/ctflab_cache_gc.py:160-178 | After a completed pass no object of the plan is unattempted, an unknown one is still unknown, a settled one reads the same |
| CacheSweep.ReportsUnattempted | tools/ctflab_cache_gc.py:161-178 | The report of a pass lists exactly the objects it found without an attempt, in the order of the plan, each once and with its result |
| CacheSweep.CutGoesInOrder | tools/ctflab_cache_gc.py:161-177 | A new pass goes through its plan in order with three effects for each object: after a death, object i has its attempt, its unlink and its result exactly if the process lived through so many effects |
| CacheSweep.CutStaysSweepable | tools/ctflab_cache_gc.py:161-178 | Wherever an undisturbed pass is cut short, every object it did not attempt is still as planned, without owner and without a stray result |
| CacheSweep.ResumeSettlesRows | tools/ctflab_cache_gc.py:197-203 | The report after a completed resume: no row unattempted, every other row as it was, and finished exactly when no row was unknown |
| CacheSweep.SummaryOfRows | tools/ctflab_cache_gc.py:149-153 | Finished and resumable, as the loop over rows computes them, are what the receipts say: a result for every object; something unattempted and all of it eligible |
| CacheSweep.ReportInFull | tools/ctflab_cache_gc.py:129-156 | Row by row on receipts, file and references: the phase, the present file, the owners, and eligible exactly when there is no attempt, the file has the planned size, digest and identity, and nobody refers to it; finished exactly when every object has a result; resumable exactly when some object has no attempt and every such object is as planned and without owner |
| CacheSweep.ReportedIsContinuable | tools/ctflab_cache_gc.py:197-201 | An operation that still reads as it was reported may go on exactly when the report says resumable and no object has more owners than can be listed |
| CacheSweep.StartInFull | tools/ctflab_cache_gc.py:40-52 | In a reachable state a start is accepted exactly under an unused id, within the limits of number, with a plan that lists in order exactly the objects without owners, each with its present size, digest and identity |
| CacheSweep.PlanIsUnique | tools/ctflab_cache_gc.py:40-52 | The plan is determined by the references and the objects, so an approval of an unchanged preview matches |
| CacheStore.StoreIsSafe | tools/ctflab_content_cache.py:97-106 | After any history of calls the ledger guarantees hold; without programs that ignore the lock, also those about references and budget, and every unlink took what was planned |
| CacheStore.ContentCache.Candidates | tools/ctflab_cache_gc.py:40-52 | Succeeds exactly within the limits of 20000, and then lists in ascending order a snapshot of every object nobody references and nothing else |
| CacheStore.ContentCache.Status | tools/ctflab_cache_gc.py:129-156 | Succeeds exactly when there is an intent, the receipts of every row belong to it with no result lacking its attempt, and no object of the plan has more than 20000 owners; the report is row by row what `ReportInFull` spells out |
| CacheStore.ContentCache.RemoveOne | tools/ctflab_cache_gc.py:171-176 | After the attempt: gets to a result exactly when the file is still the planned one at the second look and the process lives; the result says what the unlink did to whatever had the name by then, others having stepped in or not |
| CacheStore.ContentCache.ApplyOne | tools/ctflab_cache_gc.py:164-176 | Succeeds, without meddling, exactly when there is no stray result, the file is as planned, nobody references it and the process lives through three effects; a process that dies before leaves exactly the attempt, or the attempt and the unlink, or nothing; other programs may change files before the second look and between it and the unlink |
| CacheStore.ContentCache.Apply | tools/ctflab_cache_gc.py:160-178 | The pass equals the fold of one-object passes over the plan with the outcomes that the unlinks had, in receipts, report and, without meddling, files; nothing is removed that could not be; it completes when everything unattempted is as planned and the process lives; undisturbed, it leaves wherever the process dies exactly what it did before |
| CacheStore.ContentCache.Start | tools/ctflab_cache_gc.py:185-196 | Refused without any effect unless the approved plan is the plan of this moment and the operation is new; otherwise intent first, then the pass, which undisturbed leaves wherever the process dies exactly what it did before |
| CacheStore.ContentCache.Resume | tools/ctflab_cache_gc.py:197-203 | Refused without any effect unless the operation reads exactly as observed and is resumable; otherwise the pass over its recorded intent, and a report of the outcome |
| CacheStore.ContentCache.Observe | tools/ctflab_cache_gc.py:157-159 | Changes nothing; in every reachable state it succeeds exactly when the lock is free, the operation has an intent and no object of its plan has more than 20000 owners |
| CacheStore.ContentCache.DieAndResume | tools/ctflab_cache_gc.py:185-203 | A collection whose process dies after any number of effects, the report on it, and its continuation, on receipts, files and references alone: object i reads settled, unknown or unattempted exactly by that number, unattempted ones read eligible; the report says resumable exactly when the last object has no attempt, and then the continuation succeeds, settles every object that had none, and leaves exactly the interrupted one unknown |
| CacheRefs.RefRun | tools/ctflab_content_cache.py:228-240 | Every run without programs that ignore the lock keeps every durable reference backed, and what an open transaction adds too |
| CacheRefs.ReferencesAreBacked | tools/ctflab_cache_gc.py:160-178 | In every reachable state a reference has its object with the right digest, or is an upload's own whose bytes wait completely staged; a reference of any other owner always has its object |
| CacheRefs.OnlyUploadsReferenceAhead | tools/ctflab_remote_assets.py:186-202 | While every reference has its object, a step leaves one without if and only if it is an upload recording its own reference while the object is not there |
| CacheRuns.UploadReferencePrecedesObject | tools/ctflab_remote_assets.py:186-216 | A run after which an upload's reference has no object: the unrestricted promise fails |
| CacheRefs.InstanceObjectsAreForever | tools/ctflab_content_cache.py:235-240 | An object pinned by an instance owner stays, as the same file with the same digest, and so does its reference, in every later run |
| CacheRuns.EmptyPartialIsReachable | tools/ctflab_content_cache.py:279-291 | A run that leaves an empty partial file: the process dies before the first byte |
| CacheRefs.EmptyPartialIsForever | tools/ctflab_content_cache.py:261-279 | A partial file left empty is the same empty file after every later run |
| CacheRuns.CondemnedPartialIsReachable | tools/ctflab_content_cache.py:292-298 | A run of two downloads served the same wrong bytes: the first file is set aside, the second stays in place |
| CacheRefs.CondemnedPartialIsForever | tools/ctflab_content_cache.py:292-298 | A full partial file with a wrong digest whose place in quarantine is taken is the same file after every later run in which the declared size of the name does not change |
| CacheRefs.StuckIsForever | tools/ctflab_content_cache.py:261-298 | From either of the two stuck states with nobody at work, every later run leaves the partial file exactly as it is |
| CacheStore.ContentCache.Pin | tools/ctflab_content_cache.py:228-233 | Adds the reference exactly when the lock is free, the owner is an identifier and the object is there with its own digest; otherwise changes nothing |
| CacheStore.ContentCache.Unpin | tools/ctflab_content_cache.py:235-240 | Removes the reference exactly when the lock is free and the owner is an identifier that is not an instance's; otherwise changes nothing |
| CacheBudget.CommittedIsBounded | tools/ctflab_content_cache.py:108-152 | In every reachable state committed bytes are at most the registered maximum plus the declared sizes of uploads published but not yet recorded so |
| CacheBudget.OnlyPublishingOverdraws | tools/ctflab_content_cache.py:202-211 | A step from a state within its budget leaves it if and only if it publishes an upload whose size does not fit a second time |
| CacheRuns.PublishedUploadOverdraws | tools/ctflab_remote_assets.py:203-216 | A run, with a crash between the rename and the commit, after which two bytes are committed under a budget of one: the unrestricted promise fails |
| CacheBudget.FinishReleasesReservation | tools/ctflab_remote_assets.py:203-216 | Recording a published upload lowers the committed bytes by exactly its declared size |
| CacheBudget.UploadsContributeDeclaredSize | tools/ctflab_content_cache.py:133-142 | Committed bytes are the payload no open upload accounts for plus exactly the declared size of each open upload, however far it has come |
| CacheStore.ContentCache.Usage | tools/ctflab_content_cache.py:108-152 | The counting loops give payload plus reservations, and refuse exactly when there are too many files or rows or a row contradicts its staged file |
| CacheSweep.ReachableIsAuditable | tools/ctflab_content_cache.py:108-152 | In every managed run the accounting refuses a state only because there are more than 20000 files or open uploads |
| CacheStore.ContentCache.Admit | tools/ctflab_content_cache.py:202-211 | Without a budget always; with one exactly when the accounting succeeds and the additional bytes fit |
| CacheStore.ContentCache.BudgetApply | tools/ctflab_content_cache.py:184-200 | Registers the maximum exactly when the lock is free, the maximum is in range, the caller approved it for exactly this state, references and files are within their limits and everything committed fits; otherwise changes nothing |
| CacheStore.ContentCache.Receive | tools/ctflab_content_cache.py:279-291 | Under every cutting of the body and every interruption the partial file keeps its identity, only grows, never past the size; it is complete when nothing intervenes |
| CacheStore.ContentCache.Deliver | tools/ctflab_content_cache.py:292-300 | The partial file becomes the object exactly when its digest is right; otherwise it is set aside under both digests, or left when that name is taken |
| CacheStore.ContentCache.Download | tools/ctflab_content_cache.py:242-300 | Success means an object with the right digest and size; no other file is touched; an existing object is only checked. Once admitted and offered a correct answer to what it asks for, it succeeds if and only if there is no partial file, or one begun and not finished, or a full one with the right digest; when it fails then, nothing changes in the two stuck states and otherwise the partial file is cleared away |
| Addresses.ParseOfIp | gui/GuiCore.swift:1710 | The dotted text of a 32-bit value reads back as that value |
| Addresses.IpInjective | gui/GuiCore.swift:1710 | Different 32-bit values have different texts |
| Addresses.SubnetIsPrivate | gui/GuiCore.swift:1700-1709 | Every accepted block is aligned, has 4 to 65536 addresses, and each of them lies in the private space of section 3 of RFC 1918 |
| Addresses.CanonicalIsAccepted | gui/GuiCore.swift:1700-1709 | The canonical text of every aligned private block of prefix 16 to 30 is accepted, as that block |
| Addresses.AcceptedIsCanonical | gui/GuiCore.swift:1700-1709 | Every accepted text is the canonical text of the block it is read as |
| Addresses.ApartIsDisjoint | gui/GuiCore.swift:1788-1791 | The two inequalities hold exactly when the blocks share no address |
| DependencyGraph.Layers | gui/GuiCore.swift:1768-1776 | Peeling succeeds if and only if every dependency exists and there is no cycle; then the layers are a start order |
| DependencyGraph.StuckHasCycle | gui/GuiCore.swift:1774 | A remainder none of whose nodes is ready contains a cycle |
| Draft.Check | gui/GuiCore.swift:1683-1699 | Node by node and interface by interface, the check accepts exactly the manifests of proper shape whose encoding fits |
| Draft.FindEth | gui/GuiCore.swift:1720-1723 | The loop ends, with the first free interface name |
| Draft.DoConnect | gui/GuiCore.swift:1711-1735 | The edit, with both of its loops, returns what the function `Connect` says; `ConnectGuards`, `ConnectEffect` and `ConnectFailsExactlyWhenFull` say on the manifest what that is |
| Draft.DoRemoveNode | gui/GuiCore.swift:1750-1757 | The edit takes the node out, and its name out of every dependency list |
| Draft.DoDependencies | gui/GuiCore.swift:1764-1778 | The edit succeeds exactly as the declarative `Dependencies`: shape, distinct existing other nodes, and an acyclic result |
| Draft.DoAddNetwork | gui/GuiCore.swift:1784-1794 | The loop over the networks refuses exactly when some block cannot be read or meets the new one |
| DraftLaws.LeastFreeAddress | gui/GuiCore.swift:1724-1727 | The address found is a host of the block, free, and all hosts before it are taken; there is none exactly when all size - 2 hosts are |
| DraftLaws.NewInterfaceName | gui/GuiCore.swift:1719-1723 | With fewer than eight interfaces the new name is ethN with N at most 7, unused, and every smaller one is used |
| DraftLaws.ConnectGuards | gui/GuiCore.swift:1711-1723 | Connecting goes on to look for an address exactly where no other interface of the node is on the network and the named one exists, or a new one has room below eight; an interface already there stays; anything else is refused |
| DraftLaws.ConnectFailsExactlyWhenFull | gui/GuiCore.swift:1711-1735 | Given the other guards and room for the encoding, connecting fails exactly when every host address of the network is carried by some interface of the draft |
| DraftLaws.ConnectKeepsWellFormed | gui/GuiCore.swift:1711-1735 | Connecting keeps a draft well formed: shape, disjoint readable blocks, addresses distinct and in their own network's host range, one interface per node and network, dependencies existing and acyclic |
| DraftLaws.DisconnectKeepsWellFormed | gui/GuiCore.swift:1736-1741 | Disconnecting keeps a draft well formed |
| DraftLaws.AddNodeKeepsWellFormed | gui/GuiCore.swift:1742-1749 | Adding a node keeps a draft well formed |
| DraftLaws.RemoveNodeKeepsWellFormed | gui/GuiCore.swift:1750-1757 | Removing a node keeps a draft well formed, its dependants included |
| DraftLaws.ResourcesKeepWellFormed | gui/GuiCore.swift:1758-1763 | Resizing a node keeps a draft well formed |
| DraftLaws.DependenciesKeepWellFormed | gui/GuiCore.swift:1764-1778 | Accepted dependencies keep a draft well formed |
| DraftLaws.DependenciesRefuseExactlyCycles | gui/GuiCore.swift:1764-1778 | On a well-formed draft, and with room for the encoding, a selection of distinct existing other nodes is accepted if and only if the resulting graph over all nodes is acyclic |
| DraftLaws.AddNetworkKeepsWellFormed | gui/GuiCore.swift:1784-1794 | Adding a network keeps all blocks pairwise disjoint and the draft well formed |
| DraftLaws.RemoveNetworkKeepsWellFormed | gui/GuiCore.swift:1779-1783 | Removing an unused network keeps a draft well formed |
| DraftEffects.ConnectEffect | gui/GuiCore.swift:1711-1735 | Connecting changes nothing but one interface of the node: the named one moves, keeping id, hardware address and model, or a new one is appended with the first unused of eth0 to eth7 and the model virtio-net-pci where the asset of the node is aarch64, e1000 otherwise; it gets the least host address that no interface of the draft carries; one already on the network changes nothing |
| DraftEffects.AddNodeEffect | gui/GuiCore.swift:1742-1749 | A node is added exactly under a new identifier, of a known asset, below 32 nodes, where the encoding fits; it has 1 processor, 512 MB, uefi and virtio where the asset is aarch64, bios and ide otherwise, no interfaces and no dependencies; nothing else changes |
| DraftEffects.ResourcesEffect | gui/GuiCore.swift:1758-1763 | A node is resized exactly to 1 to 64 processors and 256 to 262144 MB, where the encoding fits, and nothing else changes |
| DraftEffects.AddNetworkEffect | gui/GuiCore.swift:1784-1794 | A network is added exactly under a new identifier, below 16 networks, as a readable private block that has no address in common with the block of any other, all readable, where the encoding fits; its uplink is none and nothing else changes |
| DraftEffects.RemoveNetworkEffect | gui/GuiCore.swift:1779-1783 | A network is removed exactly where it exists, no interface of any node is on it and the encoding fits, and nothing else changes |
| DraftEffects.DisconnectEffect | gui/GuiCore.swift:1736-1741 | Exactly the one interface of that name is cut out of the node's list, and nothing else changes |
| DraftEffects.DisconnectAccepts | gui/GuiCore.swift:1736-1741 | Disconnecting is accepted exactly where the node has an interface of that name and the encoding fits |
| DraftEffects.DependenciesEffect | gui/GuiCore.swift:1764-1778 | Only a selection of distinct existing other nodes is accepted; the recorded dependencies are that selection as a multiset, in order, and nothing else changes |
| DraftEffects.RemoveNodeEffect | gui/GuiCore.swift:1750-1757 | The node is gone, its name and nothing else is gone from every dependency list, order kept, and nothing else changes |
| DraftEffects.RemoveNodeAccepts | gui/GuiCore.swift:1750-1757 | Removing a node is accepted exactly where there is one of that name and the encoding fits |
| DraftEffects.EmptyDraftIsWellFormed | gui/GuiCore.swift:1683-1699 | There is a well-formed draft to begin with: the empty one |
| DraftLaws.ConnectRoundTrip | gui/GuiCore.swift:1711-1741 | Connecting a new interface and disconnecting it gives back the same draft |
| DraftLaws.NodeRoundTrip | gui/GuiCore.swift:1742-1757 | Adding a node and removing it gives back the same draft |
| DraftLaws.NetworkRoundTrip | gui/GuiCore.swift:1779-1794 | Adding a network and removing it gives back the same draft |
| History.MacGraphHistory.Edit | gui/GuiCore.swift:1882-1885 | Refuses what cannot be encoded; that, and a draft equal to the present, keeps past, present and future as they are; any other draft becomes the present, with the last twenty drafts before it as the past and no future |
| History.MacGraphHistory.Undo | gui/GuiCore.swift:1886 | The last past draft becomes the present, the present the first future one; nothing without a past |
| History.MacGraphHistory.Redo | gui/GuiCore.swift:1887 | The first future draft becomes the present again; nothing without a future |
| History.SessionsStaySound | gui/GuiCore.swift:1875-1888 | From a well-formed draft, every sequence of the eight edits, undos and redos keeps every draft in the history well formed, and past and future together at most twenty |
| History.RedoInvertsUndo | gui/GuiCore.swift:1886-1887 | Undo and redo are inverse where they do anything |
| History.RedoTimesInvertsUndoTimes | gui/GuiCore.swift:1886-1887 | Any number of undos within the past, then as many redos, changes nothing |
| History.PastIsRecent | gui/GuiCore.swift:1882-1885 | After any number of effective edits the past is the last twenty of everything shown before |
| History.UndoTakesBackEdits | gui/GuiCore.swift:1882-1887 | Up to twenty effective edits are taken back by as many undos |
| OutputObserver.OccursOneMore | gui/GuiCore.swift:39-40 | The marker occurs in the stream so far with a chunk exactly when it occurs in either, or across the seam in the kept tail and the chunk's beginning |
| OutputObserver.CapturedFits | gui/GuiCore.swift:37-38 | The capture is a prefix of the stream, never over the limit, and all of it exactly when the stream fits |
| OutputObserver.OutputBuffer.Append | gui/GuiCore.swift:35-47 | After every chunk: overflow iff the whole stream exceeds the limit, candidate iff the marker occurs in the whole stream, window and tail are its exact suffixes, the data is the capture |
| OutputObserver.OutputBuffer.TakeSnapshot | gui/GuiCore.swift:54-63 | Complete iff the stream fits, was read without failure and decodes; then the text is that of the whole stream; the candidate flag is that of the whole stream in every case |
| OutputObserver.ChunkingIsIrrelevant | gui/GuiCore.swift:35-47 | Two buffers of one limit given one stream in different chunks agree in everything but what an overflowed one captured |
| OutputObserver.AnyCountIsPossible | gui/GuiCore.swift:62 | For a stream over the limit, every count up to the limit is captured under some chunking |
| BoundedLog.Receiver.Store | tools/ctflab_bounded_log.py:55-61 | Under arbitrary short writes the file gets a prefix of the piece, as long as counted; all of it unless a write makes no progress, after which none follows |
| BoundedLog.Receiver.Accept | tools/ctflab_bounded_log.py:51-63 | The file stays the beginning of what was received, within the limit; after a failed write it is not touched again |
| BoundedLog.Receiver.Collect | tools/ctflab_bounded_log.py:43-71 | The whole stream is drained; the file is its first stored bytes; stored is the minimum of limit and received exactly if no write failed; received is stored plus discarded; the failure reported is that of the flush, else of the write, else none |
| Events.MergeMeaning | tools/ctflab_contract.py:161-186 | A page is accepted iff it is in range and, as a whole, legible, of one instance, consistent in identifiers and contents, and each new row follows the cursor or an earlier row; the result is exactly the rows beyond the cursor, each once and in order |
| EventLaws.AcceptedInFull | tools/ctflab_contract.py:161-186 | The same acceptance field by field: rows with these fields in range, all of the expected instance or of that of the first row, no identifier with two sequence numbers, no two different rows of one new sequence number, and each new row but the next preceded in the page by the one before it |
| Events.MergeEvents | tools/ctflab_contract.py:161-186 | The loop with its two dictionaries computes `Merged`, including which error code the first offending row gives |
| Events.Consume | gui/GuiCore.swift:2088-2115 | The other implementation accepts exactly the same pages with the same cursor and events, and answers every refusal with a reload |
| EventLaws.MergeSplit | tools/ctflab_contract.py:161-186 | A page of two parts is accepted iff it is not too large, the first is, the second is from the cursor reached, and they do not contradict each other; then cursor and events are those of the two merges |
| EventLaws.RepeatIsNoOp | tools/ctflab_contract.py:181-184 | A page made only of rows already merged, in any order and number, returns the same cursor and no events |
| EventLaws.PageOfLog | tools/ctflab_contract.py:161-186 | A page drawn from one log is accepted iff it leaves no gap, and yields exactly the slice of the log after the cursor |
| EventLaws.TimelineIsPrefix | tools/ctflab_contract.py:161-186 | Over any sequence of pages drawn from one log, overlapping, repeated, gapped or oversized, what the client has accumulated is exactly a prefix of the log |
| EventLaws.SliceAdvances | tools/ctflab_contract.py:161-186 | Consecutive rows that start no later than the cursor are always accepted and bring the client to their end |
| RequestLaws.SendsAreCounted | tools/ctflab_client_store.py:164-194 | In every reachable state all transmissions of an attempt have the target and payload of its row, there are at most as many as the row's tries, every one after the first was an explicit retry, and the rows are at most 10000 |
| RequestLaws.SendIsRecordedFirst | tools/ctflab_client_store.py:174-187 | Whoever is about to send holds the gate alone, and the attempt is durably recorded as under way with this target and payload and a count higher than ever sent |
| RequestLaws.ReturnedIsFinal | tools/ctflab_client_store.py:178-179 | In every later run attempts keep target and payload and never count down, and one that has returned keeps its response and is never sent again |
| RequestLaws.ReturnedIsReplayed | tools/ctflab_client_store.py:178-179 | Calling a returned attempt again changes nothing; with the same target and payload the stored response is the answer |
| RequestLaws.DecideMeaning | tools/ctflab_client_store.py:175-185 | The first transaction on identifier, target, payload, phase, retry flag and room alone: it goes ahead exactly on a new attempt that is not a retry, with room, or on a retry of the same attempt that has not returned, replays exactly a returned one, and gives each refusal code for exactly one reason |
| RequestStore.ClientStore.Intend | tools/ctflab_client_store.py:175-185 | The first transaction equals `Decide`, of which `DecideMeaning` says what it does: refusals with their codes, replay, or the row recorded as under way with one more try |
| RequestStore.ClientStore.Request | tools/ctflab_client_store.py:164-194 | Killed after any step or not at all: a new attempt below 10000 rows is recorded, sent exactly once and recorded as answered, as far as the process lives, and so is a retry of one that has not returned, with one more try; a returned one is answered from the ledger without sending; each refusal has exactly one reason and changes nothing; a busy gate changes nothing |
| RequestStore.ClientStore.Retry | tools/ctflab_client_store.py:196-201 | Sends exactly the recorded target and payload, marked as a retry, or replays a returned response |
| ConnectionLaws.CancelFlagIsPhase | tools/ctflab_client_store.py:212-231 | Under every interleaving the cancel flag is set exactly in phase cancelled; an accepted cancellation leaves cancelled or finds returned; no connection is attempted twice; at most 4096 rows |
| ConnectionLaws.SettledIsFinal | tools/ctflab_client_store.py:227-230 | Cancelled and returned rows never change in any later run; an unknown one stays so or becomes cancelled |
| ConnectionLaws.CancelDecides | tools/ctflab_client_store.py:256-261 | The caller is told the connection was cancelled iff some cancellation was accepted before the last transaction, whatever came back; otherwise it is told what came back |
| ConnectionLaws.NeverAttemptedAgain | tools/ctflab_client_store.py:219-231 | A recorded connection that no process is about to attempt, cancelled or not, is never attempted in any later run, whoever connects or cancels |
| ConnectionLaws.RecordedKeeps | tools/ctflab_client_store.py:212-231 | Whatever the call, the shared transaction keeps flag and phase in step and the rows within their limit, touches no other connection, keeps settled rows as they are, and can turn an existing row into nothing but a cancelled one |
| ConnectionLaws.RecordMeaning | tools/ctflab_client_store.py:212-231 | The shared transaction on the fields of the row alone: each error has exactly one reason and changes nothing; otherwise a new row is connecting, or cancelled with its flag, and an existing one ends cancelled with its flag unless it had returned |
| ConnectionStore.ClientConnections.CancelConnection | tools/ctflab_client_store.py:212-231 | Accepted if and only if the target is known and the connection is recorded for it, in whatever phase, or is new with room left; then the row is cancelled with its flag, unless it had returned; each error has exactly one reason and changes nothing |
| ConnectionStore.ClientConnections.Connect | tools/ctflab_client_store.py:242-261 | With arbitrary steps of other processes before and during the attempt: a new connection to a known target, with room, is attempted exactly once, told cancelled iff a cancellation came first and otherwise what came back, and the row says the same; a recorded one is never attempted, and answers cancelled if it is; each error has exactly one reason and changes nothing |
| EvidenceLaws.FileOnlyGrows | tools/ctflab_client_evidence.py:120-123 | Across any steps, crashes and further runs the file's old content is a prefix of its new content, and a verified record and its file never change |
| EvidenceLaws.FileIsWhatWasServed | tools/ctflab_client_evidence.py:109-127 | While a run is at work the file begins with exactly the bytes this run was served and never exceeds the size; when it concludes, the file is all and only those bytes |
| EvidenceLaws.VerifiedIsChecked | tools/ctflab_client_evidence.py:126-128 | In every reachable state the recorded count is at most the file's length, and a verified record's file has passed the check of size and digest as it is now |
| EvidenceStore.ClientEvidence.OpenRecord | tools/ctflab_client_evidence.py:85-93 | The first transaction on the fields of the record: opened exactly if it is of this payload, not verified and to be resumed, or new with room; then receiving, with its count kept and the cancellation cleared; each refusal has exactly one reason |
| EvidenceStore.ClientEvidence.ReceiveChunk | tools/ctflab_client_evidence.py:109-128 | One turn: an acceptable block extends the file by exactly what it lacked and is recorded; anything else, a cancellation first of all, stops the run with the file as it was; a kill leaves a prefix of the block |
| EvidenceStore.ClientEvidence.RunDownload | tools/ctflab_client_evidence.py:77-133 | Opened exactly under the conditions of `OpenRecord`, whatever phase the runs before left, and refused then only for lack of space; verified only with the exact size and digest and requests enough for the whole file; the file only grows. With an honest server, nothing disturbed and requests enough, it ends verified if and only if the local file is the beginning of the original, and unknown otherwise; with fewer requests such a file gets exactly as far as they reach; and an honest server leaves no wrong byte, however the run is cut short |
| EvidenceStore.ClientEvidence.DownloadInRuns | tools/ctflab_client_evidence.py:77-136 | Any number of runs with an honest server, each paused, cancelled, refused for lack of space or killed at any point: the file stays the beginning of the original, and one more undisturbed run with requests enough for the whole file ends it verified and equal to the original; no number of runs ends it if each has too few |
| EvidenceLaws.WrongBytesStay | tools/ctflab_client_evidence.py:120-127 | A run in which wrong bytes are served once: the digest is refused and the file keeps them |
| EvidenceLaws.WrongFileIsForever | tools/ctflab_client_evidence.py:120-123 | A file that is not the beginning of the original never becomes it in any later run; verified, it would be another file of the same size and digest |
| LibraryClosure.Closure | tools/ctflab_app.py:323-346 | Terminates; with two paths of one file needing the same libraries it succeeds iff no two needed libraries share a name as different files and every dependency resolves, and then has exactly one path per needed name; in any case every binary and every library kept has all its needs covered by what is kept; an error names a conflict or an unresolved dependency that exists |
| LibraryClosure.ExactIsUnique | tools/ctflab_app.py:323-346 | The names and the files they stand for do not depend on the order of the search |
| ProfileIds.SuggestedIsValid | gui/GuiCore.swift:808-824 | For every file name the suggestion is a valid identifier, without two dashes in a row |
| ProfileIds.SuggestedFixedPoints | gui/GuiCore.swift:808-824 | A text suggests itself exactly when it is a valid identifier without two dashes in a row |
| ProfileIds.CaseIsIrrelevant | gui/GuiCore.swift:808-815 | File names that differ only in the case of ASCII letters have the same suggestion |
| ProfileIds.LettersSurvive | gui/GuiCore.swift:808-815 | The letters in small form and the digits of the suggestion are those of the file name in order, all of them up to 49 characters and otherwise the first; the fallback stands exactly for a file name without any |
| ProfileIds.CandidatesDiffer | gui/GuiCore.swift:796-797 | Numbered candidates of one base with different numbers differ, in spite of the truncation |
| ProfileIds.AvailableProfileId | gui/GuiCore.swift:791-801 | The unbounded loop ends, with the base or its first free numbered variant |
| ProfileIds.AvailableIsFresh | gui/GuiCore.swift:791-801 | The identifier is valid and not in use; it is the base if that is free, otherwise the first free variant, found after at most one look per identifier in use and one more |
| FreeNames.FoundWithin | gui/GuiCore.swift:795-800 | Among more different names than there are taken ones, the first free one is found within that many looks |

## Left out

* CacheStore.ContentCache: legacy intents without per-object receipts (`tools/ctflab_cache_gc.py:98-99`) are only readable in the source, and are not part of this model; nor is the older one-call `collect`, which is a start with a generated identifier.
* The identity of the cache root and database (`tools/ctflab_cache_gc.py:55-61`) and the tamper checks of receipt files: a receipt reads as it was written.
* Digests and fingerprints: an approval is the value it is a digest of, a file's content digest is a value chosen freely by whoever writes the file, and nothing is assumed about the evidence digest.
* CacheBudget.CommittedIsBounded: without programs that ignore the lock; the accounting's scan of all files is one step of the machine.
* The free-space checks, index signatures, expiry and audience are boolean parameters; path guards and links are not modelled.
* Uploads (`tools/ctflab_remote_assets.py`) appear as steps of the cache machine, with arbitrary interleaving and crashes, not as a class; their per-principal quotas and the comparison of repeated chunks are not part of this model.
* Object names are numbers instead of 64 hexadecimal digits; owners in stored rows are not checked again to be identifiers.
* The editor's manifest has the fields that the edits read or write; the 64 KiB limit on its encoding is an arbitrary predicate that may refuse. Swift's regular expression `$` also accepts a final line terminator in an identifier, which the model refuses.
* ProfileIds.SuggestedIsValid: takes the file name without directory and extension; lower case is that of ASCII, while in the source a non-ASCII letter may have an ASCII lower case.
* ProfileIds.AvailableIsFresh: for fewer than 2^63 - 2 identifiers in use, as Swift's `Int` has it.
* Events.Consume: on decoded rows; the Swift decoder reads a number written with a zero fraction as an integer, the Python one refuses it. Repositioning after a refused page (`gui/GuiCore.swift:2116-2126`) is not part of this model.
* OutputObserver.OutputBuffer: the progress parser over the window, and the lock around each call.
* BoundedLog.Receiver: the status file that is rewritten while the log is collected, and reads that raise.
* RequestStore.ClientStore: requests that change nothing bypass the ledger; the payload itself stands for its digest. What the server makes of a request is not part of this model.
* ConnectionStore.ClientConnections: that a saved target changed while connecting counts as a failed attempt; rows that fail their own sanity check are not modelled.
* EvidenceStore.ClientEvidence: one download; the limit of 4096 rows is a boolean parameter. A write that raises is a step of the machine; in the class the process dies there.
* LibraryClosure.Closure: what `otool` prints and how `@rpath` is resolved is the given graph; that two paths of one file need the same libraries is a condition, because resolution looks at the path.
* Views, transport, TLS, application building, audit archives and Windows or macOS specifics.
