# kvblockd in Dafny

A Dafny model of kvblockd, a tiered (DRAM, NVMe, S3) block store behind a framed,
credit-controlled wire protocol, with proofs of what its components promise.
`dafny verify dfyconfig.toml` checks the whole project.

Concurrency is modelled at the grain of the code's own critical sections: one
step is a shard-locked closure, a latch try-acquire, a channel operation or a
single atomic, and a run is any sequence of steps. A step that is not enabled
changes nothing, so every theorem over `seq<Step>` is a theorem over every
interleaving. Where the source updates an object in place the project has a class
whose methods are proved against the machine's steps or against a pure function.

## The parts

| files | component |
|---|---|
| Sums | sums over finite maps, occurrences in sequences |
| TierMachine, TierLedger, TierExact | tier movement below DRAM: publish, delete, spill, reclaim, restore, object collection; the tenant ledgers and liveness counts |
| TierDurability, TierOwners, TierProgress | no indexed entry loses its bytes; what a latch holder can rely on; every latch can be let go of |
| TierWalks, Tiered | what a walk of a latched segment meets, visit by visit; the orchestrator as a class |
| Residency, ResidencyMoves, WriteOnce | DRAM and NVMe indexes under PUT, demotion, promotion, DELETE; what each move achieves; when bytes on NVMe survive |
| BlockRefs | DRAM reference counts and the arena |
| Charges, Tenant | quota admission; the accountant's limit cache |
| Credit, CreditRuns | the credit ledger, the client's window, and the two together |
| GhostRing, FifoQueue, S3Fifo, S3FifoLaws | the eviction policy: ghost ring, linked FIFO, one domain on the two as a class, and what the policy is for |
| S3FifoRaces, S3FifoNames, S3FifoAlone | one domain under races, what its table names, and its agreement with the policy when nothing races |
| PutStream | PUT_STREAM sessions |
| Wire, Codecs, WireLayouts | bytes, layouts, header and body codecs, and where each field sits |
| BatchGet, BatchGetClient, BatchGetStreams | BATCH_GET split and reassembly, and what the client may conclude from arbitrary bytes |
| ConnReleases, GetReleases | the write side of a connection, and the fate of every block reference |

## Where the code does not keep what it says

Five statements in the source turn out false; the code is modelled as it is.

- A publish is said never to overwrite an indexed key (internal/store/nvmeindex.go:118-127). It can: `Residency.OverwriteReachable`. The ledgers are then off by the overwritten charge and the liveness count by the overwritten entry, and that is the only way: `TierExact.LedgerExactIff`, `TierExact.LeakReachable`, `TierExact.LivenessExactIff`, `TierExact.CountLeakReachable`.
- The re-check after the DRAM insert is said to close the write-once race of two PUTs (internal/store/tiered.go:552-558). It does not: in the run of `Residency.OverwriteReachable` the second block is demoted before its re-check, replaces the acknowledged bytes on NVMe, and is acknowledged too. Bytes on NVMe survive exactly when no checked PUT and no promotion that carries other bytes is under way: `WriteOnce.SurvivesIffSafe`, `WriteOnce.SurvivesIffAlone`.
- The demotion swap is said to leave a reader no gap (internal/store/dram/demotion.go:7-14). A collapse of a dual residency decided before a DELETE and carried out after a re-PUT leaves one: `Residency.UnsettledReachable`; without it there is none: `Residency.FindableIffSettled`.
- Cached limits are said to converge in every interleaving (internal/tenant/quota.go:82-88). A namespace registered after its usage domain was published stays unlimited: `Tenant.LateAddStaysUnlimited`; any other is right whenever no SetQuota or first touch of it is in flight: `Tenant.LimitsConverge`, `Tenant.ConvergesIffNotLate`.
- A single block is said always to fit a frame, so that no BATCH_GET frame exceeds the negotiated length (internal/server/handlers.go:135-138). A block stored over a connection with a larger frame does not: `BatchGet.OversizedFrame`, `Codecs.BlobMayOutgrowFrame`. A frame exceeds the length exactly when it is one such block: `BatchGet.Pack`.

The eviction policy's table is not said to name every queued entry, and under
races it does not: an expulsion deletes by key (internal/eviction/s3fifo.go:390-397)
and may take the table entry of a successor, `S3FifoNames.TableMayMissQueuedKey`.
It names them exactly when no expulsion does that: `S3FifoNames.NamedIffNoMisfire`.

One statement is kept with room to spare: the quota comment allows one block of slack per
racing charge (internal/tenant/quota.go:14-22), and the compare-and-swap loop
allows none (`Charges.NeverOverQuota`).

## Model

| member | source | states |
|---|---|---|
| `TierLedger.MoveKeeps` | internal/store/s3tier.go:259-275 | moving a ref out or home moves its bytes between the two tier ledgers and its segment count together: both ledgers and all counts stay balanced |
| `TierLedger.RemoveVisitKeeps` | internal/store/demote.go:403-413 | a gated removal leaves the books balanced with the removed ref still owed |
| `TierLedger.PublishKeeps` | internal/store/demote.go:170-188 | insert and charge under one hold keep the books; an overwritten ref stays on them |
| `TierLedger.NextKeeps` | internal/store/tiered.go:352-368 | every critical section of every component keeps every tenant ledger and every segment count balanced |
| `TierLedger.RunKeeps` | internal/store/s3tier.go:252-455 | so does every run |
| `TierExact.LedgerExactIff` | internal/store/nvmeindex.go:115-162 | on every run the NVMe and S3 charges of every tenant are the summed lengths of its indexed and not-yet-refunded entries of that tier if and only if no publish of the run met an indexed key |
| `TierExact.LeakReachable` | internal/store/nvmeindex.go:118-138 | a run whose second acknowledgement of a key loses the first one's charge for good |
| `TierExact.LivenessExactIff` | internal/store/s3tier.go:443-462 | on every run a segment's liveness count is the number of its s3-resident entries that are indexed, or removed and not yet counted down, if and only if no publish of the run met an indexed s3-resident key of that segment |
| `TierExact.CountLeakReachable` | internal/store/nvmeindex.go:118-138 | a run that publishes, spills and flips out a key and then acknowledges it again, after which the segment's count stays one too high |
| `TierExact.NoUnderflow` | internal/store/tiered.go:352-368 | on every run no balance and no count is negative, and every refund or count-down still to come is covered, so no healing branch ever acts |
| `TierExact.NextOrphans` | internal/store/nvmeindex.go:118-138 | a charge is orphaned by exactly the publishes that meet an indexed key |
| `TierDurability.NoEntryLost` | internal/store/demote.go:334-434 | over every run of spill, reclaim with both branches and aborts, restore and object collection, an indexed entry's segment is local, or it is s3-resident, its object exists and its segment counts as live |
| `TierDurability.SpilledMeansFlagged` | internal/store/s3tier.go:69-91 | on every run, every entry homed in a segment marked spilled carries the S3 flag and the object exists |
| `TierDurability.StrandsIffProtected` | internal/store/s3tier.go:254-266 | so a visit of the flip walk strands an entry if and only if a lease or a pin protects it |
| `TierDurability.RetireLeavesOnlyResident` | internal/store/demote.go:397-424 | a retire finishes only when every entry still homed in the segment is s3-resident with its object present |
| `TierDurability.DropOnlyGarbage` | internal/store/s3tier.go:529-545 | an object is deleted only when no indexed entry is s3-resident there and no live spilled segment vouches for it |
| `TierDurability.NextDurable` | internal/store/s3tier.go:52-545 | every step keeps the durability invariant, given the balanced books |
| `TierDurability.MarkSpilledKeeps` | internal/store/s3tier.go:69-91 | flags before the marker: marking a segment spilled after a complete walk is sound |
| `TierDurability.WalkedOut` | internal/store/demote.go:397-422 | a complete, undoomed walk leaves nothing local in the segment |
| `TierDurability.AdoptKeeps` | internal/store/s3tier.go:332-376 | an adopted segment comes back spilled because everything homed in it was s3-resident, so flagged |
| `TierDurability.IdleMeansNoneOut` | internal/store/s3tier.go:457-462 | a zero liveness count means no indexed entry of the segment is s3-resident |
| `TierOwners.PoliteKeeps` | internal/store/s3tier.go:301-321 | while one goroutine holds a segment's latch, no run of the others changes the latch, the segment's flags or its footer |
| `TierOwners.StaysClosed` | internal/store/nvme/reclaim.go:26-45 | a segment that is no longer written never is again, and its footer is final, over every run |
| `TierOwners.RunOwes` | internal/store/tiered.go:604-609 | a removed ref keeps waiting for the refund of the goroutine that removed it |
| `Tiered.Tiered.constructor` | internal/store/tiered.go:217-261 | a fresh orchestrator satisfies both invariants |
| `Tiered.Tiered.Seed` | internal/store/tiered.go:249-258 | recovery indexes and charges every block found, once, nvme-resident |
| `Tiered.Tiered.S3SegAdd` | internal/store/s3tier.go:443-455 | the count moves by d, loses its entry at zero, and reports exactly the downward zero crossings |
| `Tiered.Tiered.FlipVisit` | internal/store/s3tier.go:254-275 | the shard-locked closure is the machine's flip-out step, and returns its stranded count |
| `Tiered.Tiered.S3FlipRetired` | internal/store/s3tier.go:252-278 | the walk visits every footer key once with others running between visits; the count is nonzero if and only if a visit met an entry still homed there, not flipped and protected |
| `Tiered.Tiered.OldestSealed` | internal/store/nvme/reclaim.go:26-45 | the lowest sealed, not dying segment at or above the floor, if there is one |
| `Tiered.Tiered.RemoveEntry` | internal/store/demote.go:403-413 | the gated removal is the machine's step; it removes exactly an unprotected entry homed there, protection blocks, a newer home is left alone |
| `Tiered.Tiered.RefundNvmeQuota` | internal/store/tiered.go:352-368 | the refund, interrupted before each atomic, is the two atomics on what the others left, returns the removed ref's count and bytes exactly once and leaves the held segment alone |
| `Tiered.Tiered.UnlinkRemoved` | internal/store/tiered.go:357-364 | the liveness half of a refund: the segment's count falls by exactly one if the ref was s3-resident, no other changes, and a crossing to zero nominates the object |
| `Tiered.Tiered.ReturnRemoved` | internal/store/tiered.go:365-368 | the tenant's balance on the tier that holds the charge falls by exactly the ref's length, and no other balance changes |
| `Tiered.Tiered.RemoveRetired` | internal/store/demote.go:402-421 | the delete walk visits each key once, removing and refunding, and stops if and only if a visit met a protected entry homed there |
| `Tiered.Tiered.PreGate` | internal/store/demote.go:356-383 | each entry is looked at once with others running in between; it refuses if and only if a look met an entry homed there and protected; the held segment is left alone |
| `Tiered.Tiered.ReclaimSegment` | internal/store/demote.go:334-434 | the candidate is the oldest sealed one at or above the floor; Busy if and only if its latch was held when tried or the pre-gate met a protected entry; Retired if and only if, besides, it was still retirable when the retire began and the walk met no protected entry; Stop otherwise or when there is no candidate. Retired: the file is gone, the latch free, and every entry still homed there is s3-resident with its object present. With nobody else running, a free latch and nothing protected, it is retired |
| `Tiered.Tiered.RetireHeld` | internal/store/demote.go:384-434 | the latched part: retired if and only if the segment was retirable and the walk that follows, flip or delete, met no protected entry; the latch is always released |
| `Tiered.Tiered.ReclaimPass` | internal/store/demote.go:306-327 | at most four segments retired and eight busy ones stepped over, each looked at once in rising order, only while the volume is above its mark; if the oldest candidate can be retired at once, the pass retires one |
| `TierWalks.StrandStep` | internal/store/s3tier.go:254-266 | a visit of the flip walk dooms the retire if and only if it meets a protected local entry |
| `TierWalks.QuietWalk` | internal/store/demote.go:386-421 | with nobody else running, the retire's walk meets only what was protected when it began |
| `TierWalks.ProtectionShows` | internal/store/nvmeindex.go:45-46 | a lease or a pin protects exactly its own entry, exactly while it lasts |
| `TierWalks.HealTakesTheReadRef` | internal/store/tiered.go:505-518 | a self-heal removes the ref that was read and owes its charge; a ref that took its place stays |
| `TierProgress.LatchReleasable` | internal/store/s3tier.go:306-321 | from every state, the owner of a segment's latch can finish and let go of it by its own steps alone |
| `Tiered.Tiered.HomeVisit` | internal/store/s3tier.go:397-413 | the shard-locked closure is the machine's flip-home step |
| `Tiered.Tiered.S3FlipRestored` | internal/store/s3tier.go:394-423 | the restore walk visits every footer key once, leaves the segment's flags alone, and counts exactly the visits that found an s3-resident entry |
| `Tiered.Tiered.RestoreOne` | internal/store/s3tier.go:322-376 | it restores if and only if the request still names the s3-resident ref, the latch was free, and the segment was local or there was room, the download arrived and its object existed; then the segment is local and nothing of it s3-resident, and a fresh adopt keeps its object and comes back spilled |
| `Tiered.Tiered.DropObject` | internal/store/s3tier.go:515-545 | it drops if and only if the latch was free, nothing was s3-resident at the first re-check, no live spilled segment at the second, and the deletion succeeded; then nothing needs the object at that moment |
| `Tiered.Tiered.SpillSegment` | internal/store/s3tier.go:52-95 | it spills if and only if the latch was free, the upload succeeded and the segment was still there; then the segment is spilled, its object exists, and every entry homed in it is flagged |
| `Tiered.Tiered.FlagVisit` | internal/store/s3tier.go:81-87 | lookup and flag store are separate; a ref replaced in between does not break the walk |
| `Tiered.Tiered.DeleteNvme` | internal/store/tiered.go:604-632 | the status is exactly the gate's; a refusal changes nothing; a removal takes that entry and nothing else out of the index in one hold, its charge owed, and then refunds it; with nobody in between the balance of its tier falls by exactly its length and the liveness count by one if it was s3-resident |
| `Tiered.Tiered.PublishAck` | internal/store/demote.go:170-188 | it publishes if and only if a record waits on an active segment: a fresh ref of that record under its key, its length charged to the tenant |
| `Tiered.Tiered.PutThen` | internal/store/nvmeindex.go:115-140 | insert or overwrite, and charge, in one hold |
| `Residency.ConfirmedPutIsConsistent` | internal/store/tiered.go:559-575 | from its re-check on, while its block stays in DRAM, a PUT answered OK never coexists with other bytes on NVMe |
| `Residency.ConfirmKeeps` | internal/store/tiered.go:567-573 | the re-check is what makes a confirmation sound |
| `Residency.FindableIffSettled` | internal/store/demote.go:121-197 | a key stays in DRAM or on NVMe on every run that neither takes it off NVMe nor takes its only copy out of DRAM (refused attempts do neither), if and only if it is on NVMe or no collapse of its DRAM bytes is pending |
| `Residency.ReaderFinds` | internal/store/tiered.go:441-449 | a reader that probes DRAM and then NVMe finds such a key, whatever runs before and between the probes |
| `Residency.ExistsPrefix` | internal/store/tiered.go:387-410 | the count is the longest prefix of hits and the bitmap is every key's hit, whatever the indexes hold at each probe |
| `Residency.SettledPrefixCounts` | internal/store/tiered.go:387-410 | every settled, undisturbed key counts as a hit, so a prefix of them is reported in full |
| `Residency.UnsettledReachable` | internal/store/demote.go:121-139 | a run in which an acknowledged PUT is about to lose its only copy to a collapse decided before a DELETE |
| `Residency.OverwriteReachable` | internal/store/demote.go:155-197 | a run whose publish replaces the NVMe record of an acknowledged PUT, after which the conflicting PUT is acknowledged too |
| `WriteOnce.SurvivesIffSafe` | internal/store/tiered.go:552-575 | from any state, every run that does not take the key off NVMe keeps its bytes there if and only if no checked PUT or promotion carries other bytes, and other bytes already in DRAM are neither queued nor in a demotion under way |
| `WriteOnce.SurvivesIffAlone` | internal/store/tiered.go:552-575 | for a key on NVMe only: if and only if no checked PUT and no promotion of the key carries other bytes |
| `WriteOnce.NoConflictingAck` | internal/store/tiered.go:559-575 | while that holds, no PUT of other bytes under the key is acknowledged |
| `WriteOnce.ReaderReads` | internal/store/tiered.go:441-449 | and a reader that probes DRAM and then NVMe reads those very bytes |
| `ResidencyMoves.NoBlockForgotten` | internal/store/demote.go:112-208 | on every run a DRAM block is queued for eviction or a demotion of its key is under way, so it can always be moved or evicted later |
| `ResidencyMoves.DemotionMoves` | internal/store/demote.go:121-197 | undisturbed, a demotion moves a block that was read and that NVMe does not hold, drops the DRAM copy of one NVMe holds or nobody read, and hands the key back when the gate refuses; nothing else changes |
| `ResidencyMoves.PromotionCopies` | internal/store/demote.go:225-268 | undisturbed, a promotion leaves NVMe as it is and puts the same bytes into DRAM if there is room and no block there |
| `ResidencyMoves.PutEnds` | internal/store/tiered.go:559-575 | undisturbed, a PUT of a key neither tier holds ends in DRAM, queued and acknowledged |
| `ResidencyMoves.PutOvertaken` | internal/store/tiered.go:567-573 | a PUT overtaken by a publish of other bytes is withdrawn and not acknowledged |
| `ResidencyMoves.DeleteEnds` | internal/store/tiered.go:588-602 | undisturbed, DELETE takes the key off both tiers and nothing else |
| `BlockRefs.CountIsExact` | internal/store/dram/blockref.go:22-34 | in every interleaving the count is the holders plus the index's own or not-yet-dropped reference, and never negative |
| `BlockRefs.HolderReadsItsBytes` | internal/store/dram/blockref.go:64-87 | while anyone holds a block its extent is allocated, overlaps no other, and reads as the bytes that were put |
| `BlockRefs.NoDoubleFree` | internal/store/dram/store.go:317-352 | every give-back finds its extent allocated: after a last release, a lost publish race, or a refusal by quota |
| `BlockRefs.NoLeak` | internal/store/dram/demotion.go:52-74 | an allocated extent is referenced, about to be freed, or in the hands of its PUT |
| `BlockRefs.NeverReacquired` | internal/store/dram/blockref.go:64-74 | once a count reached zero no continuation ever holds the block again |
| `BlockRefs.DeadStaysDead` | internal/store/dram/blockref.go:64-87 | a zero count stays zero over every run |
| `BlockRefs.DecrementCounts` | internal/store/dram/evict.go:246-277 | a release keeps the count exact, and the one that reaches zero becomes the one free |
| `BlockRefs.PlaceArena` | internal/store/dram/store.go:290-314 | a copy into a fresh extent leaves every other block's bytes alone |
| `BlockRefs.AcquireAlone` | internal/store/dram/blockref.go:64-74 | undisturbed, an indexed block is always acquired and its count grows by one |
| `BlockRefs.DeleteAlone` | internal/store/dram/store.go:397-419 | undisturbed, a removal drops the key and one reference, and frees the extent if and only if it was the last |
| `BlockRefs.LastReleaseFrees` | internal/store/dram/blockref.go:79-87 | a holder's release frees the extent if and only if it was the last reference |
| `BlockRefs.PutAlone` | internal/store/dram/store.go:290-352 | undisturbed, a PUT into free space under a free key is published with its bytes; a refused one leaves nothing allocated |
| `Charges.BalanceIsExact` | internal/tenant/quota.go:188-226 | whatever charges, unchecked additions, refunds and limit changes race, the balance is the sum of what the callers hold, so no update is lost and no refund ever has to heal |
| `Charges.NeverOverQuota` | internal/tenant/quota.go:188-207 | under a steady limit what was granted by checked charges never exceeds it, and without unchecked additions neither does the balance |
| `Charges.NeverOverPeak` | internal/tenant/quota.go:188-207 | under changing limits what was granted by checked charges stays within the highest one |
| `Charges.ChargeGrantedIff` | internal/tenant/quota.go:188-207 | undisturbed, a charge is granted if and only if there is no limit or the new balance is within it |
| `Charges.RefundUndoes` | internal/tenant/quota.go:213-226 | a refund takes exactly its grant out of the balance and never has to heal |
| `Tenant.ConvergesIffNotLate` | internal/tenant/quota.go:76-181 | whenever no SetQuota or first touch of the namespace is in flight and no store of it is in progress, its cached limits are the registry's if and only if it was not registered late |
| `Tenant.LimitsConverge` | internal/tenant/registry.go:180-199 | a namespace not registered late has the registry's limits cached whenever no SetQuota or first touch of it is in flight, with Reloads anywhere in progress and other namespaces in any state |
| `Tenant.LateAddStaysUnlimited` | internal/tenant/registry.go:151-166 | a run that registers a namespace after its domain was published and leaves it unlimited |
| `Tenant.QuotaTakes` | internal/tenant/registry.go:180-199 | undisturbed, a SetQuota changes that tier's limit and no other, in the registry and in force, and no other namespace notices |
| `Tenant.ReloadTakes` | internal/tenant/quota.go:168-181 | undisturbed, a Reload puts the registry's limits in force, for a namespace registered late too |
| `Tenant.RefreshHeals` | internal/tenant/quota.go:89-101 | a refresh that runs to its last store, whatever others do meanwhile, leaves the cached limits equal to what it read, and the namespace no longer late |
| `Tenant.NextInv` | internal/tenant/quota.go:116-162 | every step keeps a published namespace right, being made right, or about to be looked at again |
| `Credit.CreditWindow.constructor` | internal/transport/conn.go:95-96 | an empty ledger with the pre-negotiation window |
| `Credit.CreditWindow.SetWindow` | internal/transport/credit.go:47-52 | only the window and the frame cap change |
| `Credit.CreditWindow.Consume` | internal/transport/credit.go:59-72 | the bytes are debited; the verdict is none if and only if what is then outstanding is within the window plus one frame, else the first breach is busy and every later one fatal |
| `Credit.CreditWindow.Account` | internal/transport/credit.go:80-85 | debited without a verdict |
| `Credit.CreditWindow.Grant` | internal/transport/credit.go:90-102 | what is granted moves from outstanding to pending, never more than is outstanding |
| `Credit.CreditWindow.TakeGrant` | internal/transport/credit.go:105-114 | what fits a header's field leaves pending, the rest stays |
| `Credit.Client.WaitForCredit` | adapters/nixl/src/kvblockd_client.cpp:460-485 | reads exactly until the window is positive, the peer reports a fatal error or nothing more arrives; every header's grant counts |
| `Credit.Client.SendFrame` | adapters/nixl/src/kvblockd_client.cpp:491-513 | payload waits for a positive window and is debited whole, so the overshoot is less than the frame; an empty frame never waits |
| `Credit.Client.NextHeader` | adapters/nixl/src/kvblockd_client.cpp:435-458 | keepalives are skipped and every header's grant kept; a response is returned exactly when it is the first other frame and within the negotiated cap, and the connection dies on a fatal, unreadable or oversized one |
| `CreditRuns.CreditConserved` | internal/transport/credit.go:59-114 | once HELLO is answered, whatever the client sends: initial credit is window plus request bytes in flight plus outstanding plus pending plus grants in flight |
| `CreditRuns.NeverRefused` | internal/transport/credit.go:54-72 | a client that sends payload only from a positive window, in frames within the cap, never draws a violation, and outstanding never exceeds the window by more than a frame |
| `CreditRuns.BlockedMeansBytesReturning` | adapters/nixl/src/kvblockd_client.cpp:460-485 | a client blocked at a window that is not positive has at least the initial credit on its way back |
| `CreditRuns.NeverWedged` | internal/transport/conn.go:299-345 | from every state of a lawful run, reading, answering and flushing alone bring the whole window back |
| `CreditRuns.DrainRestores` | internal/transport/conn.go:356-391 | the run that does it, and that it ends |
| `CreditRuns.AnsweredKeeps` | internal/transport/conn.go:431-443 | whatever was pending rides the HELLO answer or precedes it |
| `CreditRuns.WindowEnforced` | internal/transport/credit.go:59-72 | whatever the client sends, the server never holds more than the window and one frame, and closes the connection at the second breach, neither earlier nor later |
| `CreditRuns.FrameRuling` | internal/transport/conn.go:299-345 | the next frame is handled if and only if it is within the cap and the window; otherwise its bytes are granted back, with an answer for an oversized frame and for the first breach and a close for the second |
| `GhostRing.Ring.constructor` | internal/eviction/ghost.go:14-19 | an empty ring |
| `GhostRing.Ring.Push` | internal/eviction/ghost.go:32-49 | the live window becomes the bounded FIFO's push: a known fingerprint changes nothing, a full ring forgets its oldest; the set stays the window |
| `GhostRing.Ring.Grow` | internal/eviction/ghost.go:55-73 | the sequence is unchanged |
| `GhostRing.Ring.Shrink` | internal/eviction/ghost.go:79-99 | the newest entries that fit stay, never below the floor |
| `GhostRing.Pushed` | internal/eviction/ghost.go:32-49 | the pushed fingerprint is remembered and the bound kept |
| `GhostRing.PushedDistinct` | internal/eviction/ghost.go:37-39 | fingerprints stay distinct |
| `GhostRing.Ladder` | internal/eviction/s3fifo.go:211-214 | the first doubling of the floor at or above what is wanted |
| `GhostRing.MaybeGrow` | internal/eviction/s3fifo.go:200-219 | toward the watermark on the ladder, never past the larger of floor and maximum, contents unchanged |
| `GhostRing.MaybeShrink` | internal/eviction/s3fifo.go:253-261 | down the ladder to the decayed watermark, the newest entries kept |
| `GhostRing.Decayed` | internal/eviction/s3fifo.go:246-249 | a gap g above the count becomes ceil(g / 2) |
| `GhostRing.GapHalves` | internal/eviction/s3fifo.go:235-249 | with a steady count the watermark comes within one of it after log2(gap) epochs, and stays there |
| `FifoQueue.Fifo.PushTail` | internal/eviction/s3fifo.go:459-468 | the links become those of the sequence with the entry appended |
| `FifoQueue.Fifo.PopHead` | internal/eviction/s3fifo.go:470-481 | the first entry leaves and the links are those of the rest |
| `FifoQueue.Fifo.Unlink` | internal/eviction/s3fifo.go:483-496 | any entry leaves and the links are those of the sequence without it |
| `S3Fifo.Domain.constructor` | internal/eviction/s3fifo.go:48-60 | an empty domain on two linked lists |
| `S3Fifo.Domain.Admit` | internal/eviction/s3fifo.go:154-193 | ghost hit to main, else to small, after the decay tick (what that is for is S3FifoLaws.ScanResistance and S3FifoLaws.SecondLife); a known key or an empty block changes nothing; the table stays the queued keys |
| `S3Fifo.Domain.Remove` | internal/eviction/s3fifo.go:265-292 | the key leaves whichever queue holds it, with its bytes |
| `S3Fifo.Domain.Touch` | internal/eviction/s3fifo.go:133-148 | the entry's count rises, up to 3 |
| `S3Fifo.Domain.MaybeDecay` | internal/eviction/s3fifo.go:235-261 | the watermark decays once an epoch and the ring follows |
| `S3Fifo.Domain.VisitSmall` | internal/eviction/s3fifo.go:353-371 | the head of small is promoted, or evicted and remembered |
| `S3Fifo.Domain.VisitMain` | internal/eviction/s3fifo.go:372-382 | the head of main gets a second chance, or is evicted unremembered |
| `S3Fifo.Domain.Victims` | internal/eviction/s3fifo.go:311-386 | the pass is the unbudgeted scan: the visit budget of six per entry plus eight never ends it |
| `S3Fifo.VisitCosts` | internal/eviction/s3fifo.go:321-371 | each visit lowers the potential by exactly one and conserves bytes |
| `S3Fifo.CostBound` | internal/eviction/s3fifo.go:321-325 | the potential is at most five per entry |
| `S3Fifo.ScanCovers` | internal/eviction/s3fifo.go:311-386 | the candidates cover the need or the domain is empty |
| `S3Fifo.ScanConserves` | internal/eviction/s3fifo.go:311-386 | bytes before are bytes after plus bytes returned |
| `S3Fifo.ScanIsMinimal` | internal/eviction/s3fifo.go:330-383 | without the last candidate the need would not be covered |
| `S3Fifo.ScanPartitions` | internal/eviction/s3fifo.go:390-397 | every tracked block is still tracked or was returned, once |
| `S3FifoLaws.ScanResistance` | internal/eviction/s3fifo.go:149-192 | any run of admissions of blocks that are not remembered leaves main as it is and queues them behind small in order |
| `S3FifoLaws.SecondLife` | internal/eviction/s3fifo.go:177-190 | a block evicted from small is remembered; admitted while it is, it joins the tail of main, otherwise it starts over in small |
| `S3FifoLaws.ComesStraightBack` | internal/eviction/s3fifo.go:177-190 | evicted from small and admitted again at once, a block is at the tail of main |
| `S3FifoLaws.ProbationEnds` | internal/eviction/s3fifo.go:340-371 | when small holds more than a tenth of the bytes or main is empty, its head goes to main with its count if it was used twice, and out and remembered otherwise |
| `S3FifoLaws.LapEnds` | internal/eviction/s3fifo.go:372-382 | otherwise the head of main goes to its tail with one use less if it has any, and out, not remembered, if not |
| `S3FifoLaws.Lap` | internal/eviction/s3fifo.go:372-382 | a lap over a main queue of blocks in use evicts none, keeps their order and takes one use from each |
| `S3FifoLaws.TouchCounts` | internal/eviction/s3fifo.go:133-148 | a touch counts one use of its block up to three and changes no other |
| `S3FifoLaws.TwoTouchesPromote` | internal/eviction/s3fifo.go:353-371 | a block at the head of small goes to main if and only if it was touched at least twice |
| `S3FifoLaws.RingIsWindow` | internal/eviction/ghost.go:32-49 | the ring holds the last fingerprints of the history of distinct pushes, as many as fit |
| `S3FifoLaws.Lingers` | internal/eviction/ghost.go:32-49 | a new fingerprint is remembered if and only if fewer than the capacity have followed it |
| `S3FifoLaws.DecayRules` | internal/eviction/s3fifo.go:235-261 | once an epoch the gap above main's count halves and the newest fingerprints that still fit stay; never without a clock; the queues are left alone |
| `S3FifoLaws.RungIsLeast` | internal/eviction/s3fifo.go:211-214 | the ladder gives the least doubling that reaches what is wanted |
| `S3FifoLaws.CapacityTracks` | internal/eviction/s3fifo.go:200-261 | growing and then shrinking at a watermark lands on that watermark's capacity, from any other watermark's |
| `S3FifoRaces.QueuesStayExact` | internal/eviction/s3fifo.go:67-78 | with Admit, Remove, Touch and scans interleaved at lock and atomic grain, every entry is linked once in the queue its state names and nowhere else, counters are exact, counts stay in 0 to 3, the watermark stays above the count |
| `S3FifoRaces.NextTasks` | internal/eviction/s3fifo.go:170-192 | an entry tombstoned before it was queued is never queued, and no entry is queued twice |
| `S3FifoRaces.CasFreqs` | internal/eviction/s3fifo.go:145-147 | a touch raises a count from below 3 only, even against a scan's decrement |
| `S3FifoNames.NamedIffNoMisfire` | internal/eviction/s3fifo.go:390-397 | after every step of a run each live entry is named by the table or being unlinked, if and only if no visit expelled an entry whose key the table already gave to a successor |
| `S3FifoNames.TableIsQueued` | internal/eviction/s3fifo.go:270-292 | without such a visit, whenever nothing is under way the table leads from each key to its one queued entry and from nowhere else |
| `S3FifoNames.MisfireUnnames` | internal/eviction/s3fifo.go:390-397 | such a visit always leaves the successor unnamed |
| `S3FifoNames.TableMayMissQueuedKey` | internal/eviction/s3fifo.go:390-397 | a run in which an expulsion takes the table entry of a successor that is then queued |
| `S3FifoAlone.AdmitAgrees` | internal/eviction/s3fifo.go:154-192 | undisturbed, the racing machine's two halves of Admit do to the queues what the policy's Admit does |
| `S3FifoAlone.SmallVisitAgrees` | internal/eviction/s3fifo.go:353-371 | so does a visit of small |
| `S3FifoAlone.MainVisitAgrees` | internal/eviction/s3fifo.go:372-382 | so does a visit of main with its second chance |
| `S3FifoAlone.TouchAgrees` | internal/eviction/s3fifo.go:133-148 | so do the two halves of Touch, for a key whose entry the table names |
| `S3FifoAlone.RemoveAgrees` | internal/eviction/s3fifo.go:265-292 | so do the two halves of Remove, for a key whose entry the table names |
| `PutStream.Session.constructor` | internal/server/session.go:58-64 | an empty session under the configured limits |
| `PutStream.Session.PutBegin` | internal/server/putstream.go:58-136 | the status of every case; a rejected BEGIN inserts nothing; an accepted one replaces a tombstone and keeps the caps |
| `PutStream.Session.PutChunk` | internal/server/putstream.go:138-186 | a live stream takes a chunk if and only if it fits the announced length and the staging cap: the bytes are appended, the stream marked active, the ledger follows; otherwise it is tombstoned; a dead or unknown stream and an empty chunk change nothing; the 32-bit sum never wraps |
| `PutStream.Session.PutCommit` | internal/server/putstream.go:188-251 | handed to the store exactly when the chunks accepted since BEGIN, in order, have the announced length and the committed hash, and then exactly those bytes; every other status |
| `PutStream.Session.PutAbort` | internal/server/putstream.go:253-270 | the stream leaves the table and the ledgers |
| `PutStream.Session.Sweep` | internal/server/session.go:243-261 | a live stream becomes a tombstone if and only if it was idle longer than the timeout, a tombstone goes if and only if it is older, nothing else changes, the ledgers stay exact |
| `PutStream.Session.TombstoneLive` | internal/server/putstream.go:279-286 | staging and hasher are dropped, the ledgers follow |
| `PutStream.Session.TakeOut` | internal/server/putstream.go:196-209 | a stream and its share of both ledgers leave together |
| `PutStream.Session.AbsorbOk` | internal/server/putstream.go:159-183 | one-shot, streaming or not yet hashed: the hash state covers exactly the staging |
| `PutStream.Session.DigestIsHash` | internal/server/putstream.go:215-225 | whichever hash path ran, the sum is the hash of the whole block |
| `PutStream.Session.NoWrap` | internal/config/config.go:366-376 | the ceilings keep the 32-bit overflow check from wrapping |
| `PutStream.Session.PutWhole` | internal/server/putstream.go:58-251 | BEGIN, chunks and COMMIT of a block that keeps to its length and finds room hand the store the concatenation of the chunks, whatever the chunking |
| `Codecs.HeaderRoundTrip` | internal/protocol/header.go:120-174 | a marshalled header parses to itself, or to too-large with every field, under any checksum function |
| `Codecs.HeaderExact` | internal/protocol/header.go:120-151 | a 64-byte header that is not fatal is the marshalling of what was parsed |
| `Codecs.ParseHeader` | internal/protocol/header.go:120-151 | fatal exactly for short buffers and wrong magic, version or checksum |
| `Codecs.MarshalTo` | internal/protocol/header.go:161-174 | in place: the first 64 bytes are the header, the rest untouched |
| `Codecs.DecodePreamble` | internal/protocol/batch.go:95-103 | accepted exactly from 8 bytes on |
| `Codecs.PreambleRoundTrip` | internal/protocol/batch.go:89-103 | round trip, whatever follows |
| `Codecs.DecodeKeyList` | internal/protocol/batch.go:128-146 | accepted exactly when the count is within the limit and the length is 8 + 32 n; the count error comes first |
| `Codecs.KeyListRoundTrip` | internal/protocol/batch.go:128-157 | round trip |
| `Codecs.KeyListExact` | internal/protocol/batch.go:128-157 | an accepted body is the encoding of what was decoded |
| `Codecs.DecodeExistsResp` | internal/protocol/batch.go:194-224 | accepted exactly for a bare failure preamble or the padded bitmap's length |
| `Codecs.ExistsRoundTrip` | internal/protocol/batch.go:167-224 | round trip with and without the bitmap |
| `Codecs.DecodeKeyStatusResp` | internal/protocol/batch.go:243-263 | accepted exactly for a bare failure preamble or the padded statuses |
| `Codecs.KeyStatusRoundTrip` | internal/protocol/batch.go:233-263 | round trip |
| `Codecs.DecodeGetRespHeader` | internal/protocol/batch.go:334-359 | accepted exactly from the descriptor table's length on |
| `Codecs.GetRespRoundTrip` | internal/protocol/batch.go:310-359 | round trip, whatever blocks follow |
| `Codecs.WriteDesc` | internal/protocol/batch.go:283-289 | in place: the first 16 bytes, the rest untouched |
| `Codecs.DescRoundTrip` | internal/protocol/batch.go:283-300 | round trip of a descriptor |
| `Codecs.DecodeHelloReq` | internal/protocol/batch.go:500-526 | accepted exactly when the announced lengths, padded, are the body's |
| `Codecs.HelloReqRoundTrip` | internal/protocol/batch.go:481-526 | round trip |
| `Codecs.DecodeHelloResp` | internal/protocol/batch.go:570-605 | only OK carries a body; accepted exactly at the padded length |
| `Codecs.HelloRespRoundTrip` | internal/protocol/batch.go:547-605 | round trip |
| `Codecs.DecodePutBegin` | internal/protocol/batch.go:632-642 | accepted exactly at 24 bytes |
| `Codecs.PutBeginRoundTrip` | internal/protocol/batch.go:622-642 | round trip, flags included |
| `Codecs.PutCommitBijective` | internal/protocol/batch.go:645-655 | both directions are inverse |
| `Codecs.NegotiateLimits` | internal/protocol/batch.go:432-456 | for every proposal: one between the floor and the server's limit is taken as it is, a lower one becomes the floor, zero or a higher one the server's limit; and a block of the session's own limit fits one of its GET frames |
| `Codecs.BlobMayOutgrowFrame` | internal/protocol/batch.go:432-456 | a block within one session's limit can be too long for another session's frame, if and only if the server's blob and frame limits are above the frame floor |
| `Wire.ParsePrint` | internal/protocol/batch.go:89-103 | a fixed layout reads back what was printed, whatever follows |
| `Wire.PrintParse` | internal/protocol/batch.go:89-103 | bytes of exactly the layout's length are reprinted as they were |
| `Wire.PadTo8` | internal/protocol/batch.go:59-59 | the next multiple of 8 |
| `Wire.PutDigit` | internal/protocol/batch.go:283-289 | little-endian: byte i is the i-th base-256 digit |
| `WireLayouts.HeaderLayout` | internal/protocol/header.go:161-174 | the offset of every header field, and that the checksum covers the first 60 bytes |
| `WireLayouts.PreambleLayout` | internal/protocol/batch.go:89-93 | status at 0, count at 4 |
| `WireLayouts.PairLayout` | internal/protocol/batch.go:149-157 | two words, the first one first |
| `WireLayouts.DescLayout` | internal/protocol/batch.go:283-289 | status at 0, length at 4, checksum at 8 |
| `WireLayouts.PutBeginLayout` | internal/protocol/batch.go:622-630 | length, time to live, checksum hint and flags at 0, 4, 8 and 16 |
| `WireLayouts.HelloReqLayout` | internal/protocol/batch.go:481-498 | the offset of every field of the fixed part |
| `WireLayouts.HelloRespLayout` | internal/protocol/batch.go:547-566 | the offset of every field of the fixed part |
| `BatchGet.PackFrame` | internal/server/handlers.go:164-245 | at least one key per frame; a frame of several fits the limit; a key left out would have overflowed it and its reference is given back at once |
| `BatchGet.OversizedFrame` | internal/server/handlers.go:135-138 | for every limit, a block one byte too long is sent in a frame one byte over it |
| `BatchGet.Pack` | internal/server/handlers.go:139-266 | the frames tile the request in order, exactly the last without the more flag; each key carries an answer the store gave for it; a frame exceeds the limit if and only if it is one block that does not fit beside its descriptor; every reference is given back or rides exactly one frame |
| `BatchGet.TilesCover` | internal/server/handlers.go:164-266 | tiling frames carry exactly one item per key |
| `BatchGetClient.ReadGetInto` | pkg/client/verbs.go:94-198 | the loop is the specified reading of the connection, in the caller's slots; what that reading accepts and refuses is BatchGetStreams.AcceptedIsSound and BatchGetStreams.MadeIsRead |
| `BatchGetClient.ReadBody` | pkg/client/verbs.go:141-192 | one response body, with every refusal |
| `BatchGetClient.FillInto` | pkg/client/verbs.go:169-185 | descriptor by descriptor, blocks into their slots, with the verdict on their checksums that FillPlaces and BatchGetStreams.FillTakes spell out |
| `BatchGetClient.SplitThenReassemble` | pkg/client/verbs.go:94-198 | for any split of the packed items and any interleaved keepalives: with verification on, the client accepts if and only if every block is what its sum says and calls the rest corrupt; what it accepts is every key's packed status and bytes in its slot, and it reads not one byte further |
| `BatchGetClient.ServeAndRead` | pkg/client/verbs.go:94-198 | for any batch, the empty one included: what the server packs for any store answers that fit, each frame in its own envelope and any keepalives between, leaves in every slot of the client an answer the store gave for that key, and nothing unread |
| `BatchGetClient.ReadFrame` | pkg/client/verbs.go:141-192 | reading one frame fills its slots, spoils the read exactly if a block is not what its sum says, and leaves exactly what follows |
| `BatchGetClient.FillPlaces` | pkg/client/verbs.go:169-185 | a frame's table and blocks fill the slots its keys own; with verification on, exactly the blocks that are not what their sums say spoil it |
| `BatchGetClient.SlotShows` | internal/server/handlers.go:198-209 | a served key shows OK and its bytes, a busy one the retry status, a missing one not-found; only the first brings bytes |
| `BatchGetStreams.AcceptedIsSound` | pkg/client/verbs.go:94-198 | on any bytes: an accepted response is made of keepalives and well-formed answers to this request, all but the last announcing another, together speaking of as many keys as asked for; the slots hold exactly what they brought; with verification on every block taken hashes to its descriptor's sum |
| `BatchGetStreams.MadeIsRead` | pkg/client/verbs.go:94-198 | every stream made of such parts is read to its end: corrupt if and only if verification fails, else short if keys are missing, else accepted |
| `BatchGetStreams.FillTakes` | pkg/client/verbs.go:169-185 | what a table served in full took from any bytes: a block of the named length for each served descriptor, its slots, and the verdict on the sums |
| `BatchGetStreams.RefusedOrForeign` | pkg/client/verbs.go:141-166 | a bare preamble is passed on as the server's refusal, a frame of another request or past the slots ends the read; a mismatch already seen outranks either |
| `ConnReleases.ExactlyOnceWhenDone` | internal/transport/conn.go:98-118 | when the connection is done every release handed over was called exactly once |
| `ConnReleases.NeverTwice` | internal/transport/conn.go:142-168 | no release is called twice, at any time |
| `ConnReleases.NotTooEarly` | internal/transport/conn.go:431-481 | none is called before its frame's write attempt or the connection's closure |
| `ConnReleases.DrainFinishes` | internal/transport/conn.go:515-526 | once both loops are gone the final drain ends |
| `ConnReleases.CalledInOrder` | internal/transport/conn.go:356-416 | until the connection closes, releases are called in the order their frames were handed over, none skipped |
| `ConnReleases.FrameGoesOut` | internal/transport/conn.go:142-168 | on an idle open connection a frame is queued, written and its release called; on a closed one the release is called at once |
| `GetReleases.EveryReferenceReleasedOnce` | internal/server/handlers.go:164-266 | once the connection is done, every block reference a BATCH_GET took was given back exactly once, packed or not, written or not |
| `GetReleases.FramesCall` | internal/server/handlers.go:247-262 | a frame's folded release gives each of its references back once |

## Left out

- Sockets, deadlines, tickers, goroutine scheduling and writev chunking: only queues, the closed flag and the release points are kept.
- The volume's files, recovery scan, checkpoints and offset allocator: used through what they promise (a sealed segment gains no entries, a footer lists every entry homed there, recovered keys are distinct and not empty, an allocated extent overlaps no other).
- Restores whose wait was cut short and whose download finishes later: a restore here finishes or fails under its latch.
- The S3 read path and its circuit breaker; lease arithmetic and pin bookkeeping: a lease or pin changes arbitrarily between steps instead.
- xxh3 and CRC32C: any function of the bytes; a streaming hasher is the sequence it absorbed.
- The eviction ladder and proportional shares of the DRAM evictor and the demoter, and the futile-pass cache: an eviction of any unheld block may happen at any time instead.
- The DRAM tier's own ledger, the residency and funnel statistics counters, and the object collector's nomination queue: the ledger is charged and refunded as the two modelled ones are, the statistics feed no decision, and the collector here may look at any segment at any time, which covers every nomination.
- 64-bit overflow of balances, byte counters and credit totals: those are unbounded integers here.
- The sharding of tables and indexes, and the copy-on-write map of eviction domains: one table and one domain stand for all.
- SampledLRU, stats, metrics, administration, S3 compatibility, configuration loading, command lines, authentication, the NIXL plugin glue.
- BlockRefs.CountIsExact: the eviction gate's own conditions are not modelled; removal from the index may happen whenever the key is there, which covers every gate.
- S3Fifo.Domain.Victims: uncontended; what holds when the scan gives up its lock between visits is S3FifoRaces.QueuesStayExact.
- Tiered.Tiered.Seed: takes recovered keys to be distinct and not empty, as recovery delivers them.
