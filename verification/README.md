# Verification of the settlement crank

The crank is the off-chain half of an options protocol: a long-running TypeScript process that
records settlement prices, settles and finalizes vaults, pushes prices and keeps the caches and
counters that this needs. This project models its self-contained parts in Dafny and proves what
they are for. `dafny verify dfyconfig.toml` checks everything; the modules follow the source files.

- **`Ed25519Layout`, `Ed25519Wire`, `Ed25519SelfPack`**: the multi-signature Ed25519 instruction. The
  packer writes one array in place, region by region; the decoder follows the declared offsets back;
  `Ed25519Wire` says what number or piece of input stands at each position.
- **`ProRata`, `ConservationBaseline`**: the expected payouts of a reclaim sweep: the swept pot is
  merged as equivalent shares, then a sequential floor-division distribution runs over pool writers
  and writer-ask backers.
- **`SettleVaultFanout`, `FanoutExecution`**: which vaults the second settle leg targets, and the
  execution of that plan in atomic batches with one-by-one isolation, while other parties race.
- **`SettleRouting`, `SettleLanes`, `Grouping`, `TupleKey`**: which settle lane owns which vault;
  `SettleLanes` states it from the raw accounts and their source bytes.
- **`OptaSettle*`**: the first-party settle lane. `OptaSettle` says what one visit, pass, discovery
  and turn of the loop do, `OptaSettleScheduler` is the object and the loop themselves, proved
  against it, and `OptaSettleSafety`, `OptaSettleTiming`, `OptaSettleStatus`, `OptaSettleReach` and
  `OptaSettleWindow` prove properties of all runs; `OptaSettleLoop` shows that the loop makes
  one, `OptaSettleDiscovery` when it discovers and what it knows.
- **`Liveness`**: batched price probing by bisection, and the miss counter.
- **`RateLimiter`**, **`FinalizeCache`**, **`FinalizeSweep`**, **`FpOracle`**, **`HermesBackoff`**,
  **`SweepQuarantine`**: the smaller stateful kernels.
- **`StableSort`** states what a stable sort returns (`StableSortIsUnique`: nothing else does);
  `Counting` counts positions; `Results` holds `Option` and `Result`.

The network, the clocks, the file system and the other parties are parameters: functions that
answer the n-th request, or values a call receives. Nothing is assumed about them except what a
lemma's `requires` states, such as a clock that does not go back or a record that stays once
written. Sorting is the stable Array.prototype.sort of the ECMAScript Language Specification,
section 23.1.3.30; signature and key lengths are those of sections 5.1.6 and 5.1.5 of RFC 8032.

## Exact conditions

Properties one would expect of the code that hold under a condition only. For each there is a lemma
with the exact condition, and a lemma that exhibits the other side of it.

- The packer's count byte is not range-checked (`crank/ed25519SelfPack.ts:164`). Among the inputs it
  accepts, the instruction declares all its signatures if and only if there are at most 255
  (`DeclaresAllSignatures`); of 256 accepted triples it declares none (`TooManyTriples`).
- When all merged shares are claimed nothing remains if and only if there are merged shares or the
  pot is empty (`NothingLeftExactlyWhen`); five stranded units (`StrandedCollateral`).
- Uninterrupted, and with every instruction built, the fan-out attempts every target if and only if
  every target's market has an asset name (`EveryTargetAttemptedExactlyWhen`); a target without one
  that the planner does plan (`NamelessTargetIsPlanned`). It is then skipped without a word and
  counted in `remaining` only.
- Cleaning an asset name twice is cleaning it once if and only if the name does not hold a NUL before
  a trailing run of spaces (`CleaningTwice`); one that does (`CleaningTwiceDiffers`).
- A pass of the first-party lane reads a due tuple's record if and only if shutdown is not asked for
  on the way, no earlier tuple's read throws and its own read answers (`PassReadsExactlyWhen`); a
  lane in which one unreadable record keeps another tuple unread for ever, inside its window and
  ready to send (`OneBadRecordStarvesTheRest`).
- The rate limiter's prune is invisible, whatever the clock does, if and only if no request arrives
  inside a window whose bucket a prune has dropped (`RateLimiter.PruningInvisibleExactlyWhen`); with
  a clock that does not go back that is always so (`PruningIsInvisible`), with one that does, ten
  thousand other addresses suffice to show it (`PruningShowsWhenTheClockGoesBack`).
- Pruning the finalize cache changes no later answer if and only if no mark is added that the cache
  would have refused for being full without the prune (`FinalizeCache.PruningInvisibleExactlyWhen`);
  such a run at the real limit (`PruningCanShow`).
- Reloading the finalize cache never turns a scan into a skip if and only if the file holds no mark
  later than the clock (`ReloadSafeExactlyWhen`); any such mark will do (`FutureMarkIsUnsafe`).
- The backoff keeps its range if and only if base <= ceiling, which nothing enforces
  (`StaysInRangeExactlyWhen`); otherwise one rate limit leaves it below base (`StuckBelowBase`).
- `tuplesProcessed` is the number of tuples settled if and only if no shutdown is seen before a tuple
  (`ProcessedMeansSettledExactlyWhen`); one settled and two reported (`ProcessedCountsTheUntried`).
- A market's source byte may change between the scans of two lanes: by `set_oracle_source`, whose
  guard lets vaults without collateral and vaults it is not shown pass, or by closing the market and
  creating it anew. The Pyth and the first-party lane work on no common vault if and only if no
  address holds a Pyth market in the one scan and an accepted first-party market in the other
  (`LanesShareNoVault`), and on no common settlement record if and only if no asset name does
  (`LanesShareNoTuple`). In one and the same scan that is always so (`OneScanSharesNoVault`,
  `OneScanSharesNoTuple`); a flipped market is in both lanes (`FlippedMarketIsInBothLanes`).
- All quotes lie within the pushed confidence of the pushed price if and only if that price is no
  further from the midpoint of their range than rounding has made the confidence exceed half of it
  (`CoversExactlyWhen`); a pushable sample with a quote outside (`ConfidenceMissesAQuote`). That the
  median is the midpoint is the condition before rounding only (`MidpointCoversExactly`): for the
  pushed values it is not enough (`MidpointIsNotEnough`), nor needed (`MidpointIsNotNeeded`). Every
  quote lies within twice the confidence and one and a half micro-units more
  (`ConfidenceCoversQuotes`).
- A batch that failed three times in a row is quarantined if and only if one of these failures, from
  the third on, came at a time other than 0 (`QuarantineNoticedExactlyWhen`), which a positive clock
  ensures (`QuarantinedExactlyWhen`); a third failure at time 0 (`TimeZeroIsMistakenForFree`).

One window length admits at most 2 * max - 1 requests of an IP, not 2 * max, and that many are
possible (`WindowBound`, `WindowBoundIsTight`); with max below 1 a window still admits the request
that opens it.

## Model

| member | source | states |
|---|---|---|
| `Ed25519SelfPack.Refusal` | crank/ed25519SelfPack.ts:127-153 | the packer throws for exactly the inputs that are not packable: empty, wrong lengths, differing messages, or a field that does not fit its width |
| `Ed25519SelfPack.CheckLengths` | crank/ed25519SelfPack.ts:136-145 | the first wrong signature or key length in input order |
| `Ed25519SelfPack.CheckMessages` | crank/ed25519SelfPack.ts:151-153 | passes iff all triples share one message |
| `Ed25519SelfPack.WriteOffsetTable` | crank/ed25519SelfPack.ts:168-179 | the offset structs in place, or failure iff a field does not fit 16 bits |
| `Ed25519SelfPack.WriteBlobs` | crank/ed25519SelfPack.ts:182-186 | the signature and key blobs in place after the table |
| `Ed25519SelfPack.WriteTrailer` | crank/ed25519SelfPack.ts:192-195 | the trailing metadata in place, the slot least significant byte first (`Ed25519Wire.LittleEndianHolds`), or failure iff the slot does not fit 64 bits |
| `Ed25519SelfPack.PackEd25519Ix` | crank/ed25519SelfPack.ts:121-198 | the array written in place, region after region, is the image of the sorted triples and holds every number and piece of input at its position, byte by byte; otherwise the first failing check is reported |
| `Ed25519SelfPack.PackedIsWritten` | crank/ed25519SelfPack.ts:155-195 | for all accepted inputs: total length, count, the seven 16-bit fields of every struct, signatures, keys, message, index bytes by ascending oracle index, the 64-bit slot, version and "SBOD", each as bytes at a position |
| `Ed25519Wire.LittleEndianHolds` | crank/ed25519SelfPack.ts:193 | the eight slot bytes, weighted 1, 256, ..., 256^7, add up to the slot |
| `Ed25519Wire.DecodeResolves` | crank/ed25519SelfPack.ts:211-239 | for every buffer: failure iff a declared struct lies outside; else each slice has the fields its 14 bytes say, the bytes they point at as far as there are any, and the verifier's verdict on them |
| `Ed25519SelfPack.DecodeAndVerifyEd25519` | crank/ed25519SelfPack.ts:211-239 | the loop resolves every declared offset struct and fails only when a struct lies outside the buffer |
| `Ed25519SelfPack.RoundTrip` | crank/ed25519SelfPack.ts:121-239 | for up to 255 triples, decoding what was packed gives back the input triples in oracle-index order with their own signature, key, the shared message and the instruction index; all verified iff every input verifies |
| `Ed25519SelfPack.DeclaresAllSignatures` | crank/ed25519SelfPack.ts:163-165 | for all accepted inputs: every triple is declared iff there are at most 255; else a correct prefix is |
| `Ed25519SelfPack.TooManyTriples` | crank/ed25519SelfPack.ts:163-165 | 256 accepted triples of which none is declared |
| `Ed25519SelfPack.PackIgnoresInputOrder` | crank/ed25519SelfPack.ts:146 | with distinct oracle indices, any order of the same triples packs to the same bytes |
| `StableSort.SortIsStable` | crank/ed25519SelfPack.ts:146 | elements that tie keep their input order |
| `StableSort.StableSortIsUnique` | crank/ed25519SelfPack.ts:146 | any stable sort returns what the model's does |
| `Ed25519Layout.ImageTrailer` | crank/ed25519SelfPack.ts:191-195 | after the message lie the index bytes in sorted order, the slot in little-endian order, the version byte and the tag |
| `Ed25519Layout.ImageCarries` | crank/ed25519SelfPack.ts:163-189 | a reader of the image finds, for every triple, the struct written for it and its bytes where the struct points |
| `Ed25519Layout.RegionsTile` | crank/ed25519SelfPack.ts:155-163 | header, structs, blobs, message, indices, slot, version and tag are pairwise disjoint and cover the buffer exactly |
| `Ed25519Layout.FixedDataStartOverlaps` | crank/ed25519SelfPack.ts:155-156 | with the data start fixed at its one-signature value the regions are disjoint iff there is one signature |
| `Ed25519Layout.OffsetsFit` | crank/ed25519SelfPack.ts:168-179 | for at most 255 signatures every written offset fits 16 bits and offset plus size stays inside the buffer |
| `ProRata.DistributeConserves` | crank/_probe_conservation_baseline.ts:86-111 | payouts plus remainder equal the pot, claims plus remaining shares equal the shares, and nothing goes negative, for all claimant lists |
| `ProRata.TruncDivTruncates` | crank/_probe_conservation_baseline.ts:93-108 | the division rounds toward zero on either side of it |
| `ProRata.PayoutBounds` | crank/_probe_conservation_baseline.ts:93-110 | claimant k gets at least its share of the initial pot rounded down and at most that share plus k |
| `ProRata.RatioNeverFalls` | crank/_probe_conservation_baseline.ts:93-110 | remaining collateral per remaining share never falls over any stretch of claimants |
| `ProRata.OrderMovesPayoutLittle` | crank/_probe_conservation_baseline.ts:87-110 | reordering the claimants moves a payout by no more than the claimant's position |
| `ProRata.DrainedExactlyWhenOwned` | crank/_probe_conservation_baseline.ts:95-109 | with all shares claimed the remainder is 0 iff there were shares or the pot was empty |
| `ConservationBaseline.PayPoolWriters` | crank/_probe_conservation_baseline.ts:83-99 | the writer loop pays every active writer its premium and its sequential pro-rata collateral |
| `ConservationBaseline.PayBackers` | crank/_probe_conservation_baseline.ts:101-113 | the backer loop continues the same distribution and fails iff a backer with shares meets none remaining |
| `ConservationBaseline.PayVault` | crank/_probe_conservation_baseline.ts:55-113 | one vault's run succeeds iff no division by zero occurs, and then every payout is as specified |
| `ConservationBaseline.PremiumMakesUpTheGross` | crank/_probe_conservation_baseline.ts:92 | with g the whole units earned, premium plus debt plus claimed make up g, or the premium is 0 |
| `ConservationBaseline.NoPremiumTwice` | crank/_probe_conservation_baseline.ts:92 | once a premium is added to what was claimed, none is due |
| `ConservationBaseline.EquivTotalIsFair` | crank/_probe_conservation_baseline.ts:73 | the shares minted for the swept pot are its worth in shares rounded down, or one for one in a vault without collateral |
| `ConservationBaseline.EquivSharesAreFair` | crank/_probe_conservation_baseline.ts:107 | a backer's equivalent shares are its part of those minted, rounded down |
| `ConservationBaseline.WritersInOrder` | crank/_probe_conservation_baseline.ts:84-87 | writers are paid in the order of the list |
| `ConservationBaseline.OneWriter` | crank/_probe_conservation_baseline.ts:85 | a writer is paid iff it has shares |
| `ConservationBaseline.BackersInOrder` | crank/_probe_conservation_baseline.ts:103-106 | backers are paid in the order of the list |
| `ConservationBaseline.OneBacker` | crank/_probe_conservation_baseline.ts:106 | a backer is paid, under its own name, iff it committed something and the pot was swept |
| `ConservationBaseline.GrandTotals` | crank/_probe_conservation_baseline.ts:127-137 | over well-funded vaults the first printed sum is what all pool writers get, premiums included, and the second what all backers get |
| `ConservationBaseline.EquivSharesFit` | crank/_probe_conservation_baseline.ts:72-75 | equivalent shares handed out are non-negative and sum to at most those minted |
| `ConservationBaseline.PayoutConservation` | crank/_probe_conservation_baseline.ts:72-113 | for every well-funded vault: no division by zero, running collateral and shares never negative, payouts plus remainder equal tc + swept - e |
| `ConservationBaseline.NothingLeftExactlyWhen` | crank/_probe_conservation_baseline.ts:72-113 | with all merged shares claimed the remainder is 0 iff there are merged shares or the merged pot is empty |
| `ConservationBaseline.StrandedCollateral` | crank/_probe_conservation_baseline.ts:72-113 | a well-funded vault without shares that keeps its collateral |
| `ConservationBaseline.ClaimantBounds` | crank/_probe_conservation_baseline.ts:86-111 | every writer and backer of a well-funded vault gets its fair share rounded down and at most its position above it |
| `ConservationBaseline.MergeNeverDilutes` | crank/_probe_conservation_baseline.ts:72-95 | merging the pot leaves each writer at least its pre-merge share of the pool |
| `ConservationBaseline.VaultMoves` | crank/_probe_conservation_baseline.ts:127-137 | one vault's writer payouts add up to its premiums and what their claims take from the pot, its backer payouts to what theirs take |
| `TupleKey.KeyInjective` | crank/settleRouting.ts:113 | a tuple key names one asset and one expiry, whatever the asset name contains |
| `SettleVaultFanout.PaddingIgnored` | crank/settleVaultFanout.ts:112-115 | trailing spaces then NULs are not part of a name |
| `SettleVaultFanout.SpacesAre` | crank/settleVaultFanout.ts:112-115 | the characters stripped as white space are the 25 of the language standard |
| `SettleVaultFanout.CleaningTwice` | crank/settleVaultFanout.ts:112-115 | cleaning twice differs from cleaning once iff the name is a stem, a NUL, at least one space, and NULs |
| `SettleVaultFanout.CleaningTwiceDiffers` | crank/settleVaultFanout.ts:112-115 | such a name |
| `SettleVaultFanout.EligibleMeansRecorded` | crank/settleVaultFanout.ts:137-165 | a vault is eligible iff expired, live, on a known market, and a record exists for its own asset and expiry |
| `SettleVaultFanout.EligibleExactlyWhen` | crank/settleVaultFanout.ts:136-166 | a candidate is a vault of the scan that is due, on a known market, with a record of the market's cleaned name and its expiry |
| `SettleVaultFanout.SkipsByReason` | crank/settleVaultFanout.ts:145-165 | how many vaults each of the five counters counts, from the raw accounts |
| `SettleVaultFanout.AssetOfTheLastListed` | crank/settleVaultFanout.ts:136-139 | of several accounts for one market address the last listed gives the name |
| `SettleVaultFanout.PlanSettleFanout` | crank/settleVaultFanout.ts:126-179 | the plan's targets, eligible count and every skip counter |
| `SettleVaultFanout.EveryVaultAccountedFor` | crank/settleVaultFanout.ts:154-166 | eligible plus all skip counters equals the vaults |
| `SettleVaultFanout.TargetsAreTheOldest` | crank/settleVaultFanout.ts:172-178 | the targets are as many as the ceiling allows, with the rest make up the eligible multiset, and no vault left out is older |
| `SettleVaultFanout.SameTupleAdjacent` | crank/settleVaultFanout.ts:172-176 | targets of one (expiry, market) are adjacent |
| `SettleVaultFanout.ChunkTargets` | crank/settleVaultFanout.ts:182-187 | the chunks concatenate to the targets, all full but the last, none empty; sizes below 1 are refused |
| `FanoutExecution.BuildBatch` | crank/settleVaultFanout.ts:361-371 | exactly the vaults with an asset name whose instruction builds are built, in order; the others are logged each with its reason, only a build failure being counted |
| `FanoutExecution.Isolate` | crank/settleVaultFanout.ts:380-406 | in isolation every vault is logged once, in order, and honestly; one transaction each with a poll before it, up to the first poll that says stop |
| `FanoutExecution.SendBatchThenIsolate` | crank/settleVaultFanout.ts:375-406 | the whole batch goes out first, in one transaction and without a poll; if that lands it is all that is sent, one more transaction counted and the whole batch settled; if not, isolation follows |
| `FanoutExecution.RunBatch` | crank/settleVaultFanout.ts:361-407 | one batch adds its vaults to the log once and keeps counters and log in step; it sends what can be built as one transaction first, and nothing if nothing can be built |
| `FanoutExecution.RunSettleFanout` | crank/settleVaultFanout.ts:341-410 | whatever network, other parties and shutdown do: counters equal the log, each target at most once, no vault settled twice; undisturbed, every target is attempted and on a delivering network settled; with distinct unsettled targets and nobody else about, exactly one poll and one transaction for each four targets up to the first poll that says stop, so (n + 3) / 4 transactions without one |
| `FanoutExecution.EveryTargetSettled` | crank/settleVaultFanout.ts:373-410 | even when confirmations are lost, every target ends settled and the counters add up to the targets |
| `FanoutExecution.EveryTargetAttemptedExactlyWhen` | crank/settleVaultFanout.ts:359-373 | when nothing stops the run and every instruction builds, all targets are attempted iff all their markets have an asset name |
| `FanoutExecution.NamelessTargetIsPlanned` | crank/settleVaultFanout.ts:136-178 | a vault on a market without a name that the planner plans |
| `FanoutExecution.EachTargetLoggedOnce` | crank/settleVaultFanout.ts:359-406 | with distinct targets no vault has two log entries |
| `SettleRouting.ComputePythExpiredTuples` | crank/settleRouting.ts:90-129 | the loop builds the sorted tuples and the four skip counters |
| `SettleLanes.EnumeratedExactlyWhen` | crank/settleRouting.ts:98-129 | a vault is in a Pyth tuple iff it is expired, neither settled nor voided, its market is known and named, and the market's source byte is 0 or absent |
| `SettleLanes.SkipsByByte` | crank/settleRouting.ts:98-111 | the counters count exactly the due vaults of byte 1, of byte 2 and of any unknown value, and the expired voided ones |
| `SettleRouting.MarketsByPda` | crank/settleRouting.ts:95-96 | the map holds the last market listed for each address |
| `SettleRouting.BucketIsOneTuple` | crank/settleRouting.ts:113-126 | vaults grouped under one key share asset and expiry |
| `Grouping.GroupsPartition` | crank/settleRouting.ts:99-126 | grouping by key into an insertion-ordered map puts every item in exactly one group |
| `SettleRouting.PythItemsAre` | crank/settleRouting.ts:100-118 | the vaults the loop takes are exactly those of the lane, in order |
| `SettleRouting.PythEnumerationIsExact` | crank/settleRouting.ts:90-129 | the tuples have distinct keys and are sorted by expiry; each passes the builder's guard, carries the feed of its first vault's market and holds exactly the lane's vaults of its own asset and expiry; together they hold every vault of the lane once |
| `SettleRouting.BucketIsTupleVaults` | crank/settleRouting.ts:100-126 | the vaults grouped under a tuple's key are the lane's vaults of that asset and expiry, in scan order |
| `SettleRouting.AssertPythTuple` | crank/settleRouting.ts:135-141 | the guard lets a tuple through iff its source is 0 or absent, that is iff the lane would take a due vault of a named market with that source; it stops no enumerated tuple |
| `SettleRouting.AcceptMarkets` | crank/optaSettleCrank.ts:153-164 | first-party markets are accepted at the address of their own name, the others counted as refused |
| `SettleRouting.GroupSource2` | crank/optaSettleCrank.ts:166-176 | the vaults on accepted markets, grouped in order of first appearance |
| `SettleRouting.EnumerateSource2Tuples` | crank/optaSettleCrank.ts:148-180 | the loop builds the sorted tuples and both market counters |
| `SettleRouting.Source2EnumerationIsExact` | crank/optaSettleCrank.ts:148-180 | distinct keys, each tuple on the market of its own name, and live-vault counts that sum to the live vaults on accepted markets |
| `SettleLanes.Source2ByByte` | crank/optaSettleCrank.ts:148-178 | each first-party tuple has a market of byte 2 at the address of its name, the feed bytes the scan last gave for it, and as many live vaults as the scan shows; oldest first, then by name; every live vault of a taken market is in one |
| `SettleLanes.AcceptedByByte` | crank/optaSettleCrank.ts:154-161 | a market is accepted iff its byte is 2, it has a name and sits at the address of that name; refused iff its byte is 2 and it does not |
| `SettleLanes.RefusedByByte` | crank/optaSettleCrank.ts:154-160 | the refused counter counts exactly those |
| `SettleRouting.LanesShareNoVault` | crank/settleRouting.ts:100-112 | whatever two scans the lanes work from: no vault belongs to both iff no address holds a Pyth market in one and an accepted first-party market in the other |
| `SettleRouting.LanesShareNoTuple` | crank/settleRouting.ts:100-113 | whatever two scans and vaults: no tuple of one lane is ever a tuple of the other iff no asset name belongs to a Pyth market in one and an accepted first-party market in the other |
| `SettleRouting.OneScanSharesNoVault` | crank/settleRouting.ts:6-9 | in one scan, whose addresses are distinct, no vault belongs to both lanes |
| `SettleRouting.OneScanSharesNoTuple` | crank/settleRouting.ts:6-9 | in one scan of markets at the addresses derived from their names, no tuple belongs to both lanes |
| `SettleRouting.FlippedMarketIsInBothLanes` | programs/opta/src/instructions/set_oracle_source.rs:22-45 | a market flipped from source 0 to source 2 between the scans: its vault and its tuple are in both lanes |
| `SettleRouting.PythTupleOf` | crank/settleRouting.ts:98-129 | every vault of the Pyth lane is in a tuple of its own asset and expiry |
| `SettleRouting.Source2TupleOf` | crank/optaSettleCrank.ts:136-179 | every vault of the first-party lane is in a tuple of its own market's asset and its expiry |
| `OptaSettleSafety.GateOpensExactlyWhen` | crank/optaSettleCrank.ts:110-134 | the gate sends iff expiry <= now <= expiry + 300 and the feed has a push at or after expiry |
| `OptaSettleSafety.EverySendIsJustified` | crank/optaSettleCrank.ts:333-413 | in every run each send is live, inside the window on cluster time, after a post-expiry push and after the record was read absent earlier in the same pass |
| `OptaSettleStatus.DoneOnlyAfterRecordRead` | crank/optaSettleCrank.ts:321-413 | in every reachable state a done tuple had its record read and found, and a dead one had it read and not found at a cluster time past its window |
| `OptaSettleStatus.StatusIsTheVerdict` | crank/optaSettleCrank.ts:289-413 | in every reachable state a tuple's status is exactly what the reads of its record since it entered the map say |
| `OptaSettleSafety.NeverSentAgain` | crank/optaSettleCrank.ts:289-413 | after a record was seen or the tuple was marked dead it is never sent again, even if discovery drops and re-adds it |
| `OptaSettleScheduler.Scheduler.Step` | crank/optaSettleCrank.ts:333-413 | the method's mutations are the pass of the model, and its result the wait |
| `OptaSettleScheduler.Scheduler.VisitTuple` | crank/optaSettleCrank.ts:336-411 | one turn of the pass over the states |
| `OptaSettleScheduler.Scheduler.PollFeed` | crank/optaSettleCrank.ts:364-381 | the feed poll, the first-push bookkeeping and the dry-run branch |
| `OptaSettleScheduler.Scheduler.SendTuple` | crank/optaSettleCrank.ts:385-402 | the send and the read-back that marks a tuple done |
| `OptaSettleScheduler.Scheduler.RecheckRecord` | crank/optaSettleCrank.ts:403-410 | after a failed send the record decides |
| `OptaSettleScheduler.Scheduler.SpacedSend` | crank/optaSettleCrank.ts:382-384 | no send within 5 s of the last one |
| `OptaSettleScheduler.Scheduler.Reconciliation` | crank/optaSettleCrank.ts:294-310 | the reconciliation of the states with a scan |
| `OptaSettleScheduler.Scheduler.DiscoverIfDue` | crank/optaSettleCrank.ts:424-432 | discovery when due, and when the next one is |
| `OptaSettleScheduler.Scheduler.Discover` | crank/optaSettleCrank.ts:289-320 | known tuples keep their state, new ones enter fresh, unlisted ones are dropped, and a failed read changes nothing |
| `OptaSettleScheduler.Scheduler.RunTurn` | crank/optaSettleCrank.ts:422-441 | discovery if due, a step, and the sleep they lead to |
| `OptaSettleScheduler.RunOptaSettleCrank` | crank/optaSettleCrank.ts:416-443 | the loop sleeps exactly as the model's turns say |
| `OptaSettleTiming.VisitSendsExactlyWhen` | crank/optaSettleCrank.ts:336-389 | a visit sends once iff the tuple is active and in its window, the record absent, the push seen, not dry-run and the last send 5 s ago |
| `OptaSettleTiming.VisitRemembers` | crank/optaSettleCrank.ts:365-381 | what a visit keeps of the feed: the first push at or after expiry, whether it had been polling before one, and whether a dry run would have sent |
| `OptaSettleTiming.CapMeans` | crank/optaSettleCrank.ts:335-361 | one tuple's limit on the sleep: 2 s inside the window, until expiry but at least 250 ms before, 30 s otherwise |
| `OptaSettleTiming.SendsSpan` | crank/optaSettleCrank.ts:382-383 | in every run k sends of a tuple kept in the map span at least (k - 1) * 5 s |
| `OptaSettleTiming.StepWaits` | crank/optaSettleCrank.ts:333-413 | a completed step waits at most 30 s, at most max(250 ms, time to expiry) of every pending tuple, at most 2 s with a tuple in its window, no less than the least of these, and has read the record of every due tuple |
| `OptaSettleTiming.PassWithinCap` | crank/optaSettleCrank.ts:336-361 | the wait never exceeds the cap of a tuple visited |
| `OptaSettleTiming.PassWaitAttained` | crank/optaSettleCrank.ts:336-361 | the wait is some tuple's cap or the idle limit |
| `OptaSettleTiming.PassReads` | crank/optaSettleCrank.ts:346-363 | a completed pass reads the record of every active tuple that is due |
| `OptaSettleReach.VisitThrowsExactlyWhen` | crank/optaSettleCrank.ts:336-402 | a visit aborts the pass iff its tuple is due and its record read throws, or it is in its window without a record and its feed read throws; never for a failed send |
| `OptaSettleReach.PassReadsExactlyWhen` | crank/optaSettleCrank.ts:336-366 | a pass reads a due tuple's record iff shutdown is not asked for on the way, no earlier tuple throws, and its own read answers |
| `OptaSettleReach.StepReadsExactlyWhen` | crank/optaSettleCrank.ts:333-366 | the same for a step from any reachable state |
| `OptaSettleReach.BlockedForever` | crank/optaSettleCrank.ts:336-366 | a due tuple whose record never answers keeps every later tuple unread through any number of steps |
| `OptaSettleReach.OneBadRecordStarvesTheRest` | crank/optaSettleCrank.ts:289-366 | such a lane, discovered from a scan: a tuple in its window, ready to send, is never looked at |
| `OptaSettleWindow.PendingIsActive` | crank/optaSettleCrank.ts:336-356 | a tuple before its expiry is never done or dead |
| `OptaSettleWindow.SleepEndsInWindow` | crank/optaSettleCrank.ts:343-441 | one turn before expiry cannot oversleep the window |
| `OptaSettleWindow.NoWindowSleptThrough` | crank/optaSettleCrank.ts:333-441 | with under 300 s of other delays from one successful clock reading to the next, every tuple known before expiry gets a pass inside its window, and every pass inside the window reads its record exactly when it gets to it, unless the record had been found in the window already |
| `OptaSettleWindow.LoopSleepsThroughNoWindow` | crank/optaSettleCrank.ts:416-443 | the same for every stretch of turns of the loop itself, failed readings and failed passes included |
| `OptaSettleWindow.OnlyLastInterrupted` | crank/optaSettleCrank.ts:337-439 | only the loop's last pass is cut short by shutdown |
| `OptaSettleDiscovery.EveryTurnDiscoversWhenDue` | crank/optaSettleCrank.ts:423-441 | every turn: not due, nothing changes; due and read, the pass starts with exactly the tuples the scan lists, with the progress made on those known before, and the next discovery is due 240 s after the clock read that follows; due and failed, 30 s; the sleep is 250 ms or ends no later than that |
| `OptaSettleDiscovery.FirstTurnIsDue` | crank/optaSettleCrank.ts:422-424 | the first turn's discovery is due |
| `OptaSettleDiscovery.KnownFromThenOn` | crank/optaSettleCrank.ts:277-305 | a tuple known at one turn and listed by every scan since is known, with its expiry, at every later turn |
| `OptaSettleDiscovery.ListedTupleGetsItsWindow` | crank/optaSettleCrank.ts:416-443 | the window theorem for a tuple that the scans list, once a discovery has succeeded: nothing need be known to begin with |
| `OptaSettleLoop.LoopIsARun` | crank/optaSettleCrank.ts:416-443 | the state after every turn of the loop is one that a run of discoveries, steps and polls reaches |
| `OptaSettleLoop.LoopIsSafe` | crank/optaSettleCrank.ts:416-443 | after every turn each send so far was justified, each done tuple had its record found, each dead one its window missed |
| `OptaSettleLoop.LoopDoesNotRepeatItself` | crank/optaSettleCrank.ts:416-443 | in the loop no tuple is sent after its record was seen or it was marked dead, and k sends span at least (k - 1) * 5 s |
| `Liveness.ProbePythInto` | crank/livenessCrank.ts:125-152 | the recursion fills the shared map as the bisection says |
| `Liveness.ProbeFindsExactlyTheKnown` | crank/livenessCrank.ts:125-152 | if requests succeed exactly when all ids are known, the map gains exactly the known ids and their times |
| `Liveness.ProbeRecordsOnlyTruth` | crank/livenessCrank.ts:136-145 | whatever requests fail, nothing untrue is recorded |
| `Liveness.ProbeIsLinear` | crank/livenessCrank.ts:125-152 | at most 2n - 1 requests for n ids |
| `Liveness.ProbeIsolatesCheaply` | crank/livenessCrank.ts:125-152 | at most 1 + 2 b ceil(log2 n) requests to isolate b unknown ids |
| `Liveness.CeilLog2Is` | crank/livenessCrank.ts:125-152 | the logarithm of that bound: the least power of two that reaches n |
| `Liveness.FetchTimes` | crank/livenessCrank.ts:266-269 | chunking loses and invents nothing: no untrue time whatever requests fail, and every known one if they succeed exactly when all their ids are known |
| `Liveness.FetchAsksInBatches` | crank/livenessCrank.ts:266-269 | no request is for more ids than a batch, for none, or for one not listed |
| `Liveness.Board.ProbePyth` | crank/livenessCrank.ts:261-283 | whatever requests fail, every probed feed is marked once and a hit has its true, fresh time; if requests succeed exactly when all their ids are known, each is marked on its own merits; no feed is added or lost |
| `Liveness.Board.RunRounds` | crank/livenessCrank.ts:354-376 | over the loop's turns, each feed tracked before has one more outcome from each, a fair one, and its state is the replay of all its outcomes |
| `Liveness.Board.LiveMeansHitLately` | crank/livenessCrank.ts:168-176 | at any time a feed on the board is live iff one of its last K outcomes was a hit |
| `Liveness.Board.Track` | crank/livenessCrank.ts:178-240 | entries are only ever added; a tracked feed keeps its state |
| `Liveness.Board.MarkHit` | crank/livenessCrank.ts:168-172 | live, no misses, the new time |
| `Liveness.Board.MarkAll` | crank/livenessCrank.ts:270-281 | every probed feed is marked once by its own outcome |
| `Liveness.Board.MarkMiss` | crank/livenessCrank.ts:173-176 | one more miss, dead at the limit |
| `Liveness.LiveIsAWindowRule` | crank/livenessCrank.ts:168-176 | after any history a feed is live iff one of its last K outcomes was a hit |
| `Liveness.MissesCountTheTail` | crank/livenessCrank.ts:168-176 | the counter is the length of the tail of misses |
| `Liveness.AsOfIsTheLatestHit` | crank/livenessCrank.ts:168-172 | the recorded time is that of the latest hit |
| `RateLimiter.Limiter.Allow` | crank/sbCreateMarketEndpoint.ts:158-176 | the answer and the new bucket map, prune included |
| `RateLimiter.Limiter.Prune` | crank/sbCreateMarketEndpoint.ts:165-169 | the loop deletes exactly the expired buckets |
| `RateLimiter.PruningIsInvisible` | crank/sbCreateMarketEndpoint.ts:158-176 | on every run with a non-decreasing clock an IP gets the answers of a limiter that serves it alone and never forgets, at any prune threshold |
| `RateLimiter.UnforgottenIsAlone` | crank/sbCreateMarketEndpoint.ts:158-176 | whatever the clock does, an IP none of whose requests meets a forgotten window is answered as if served alone |
| `RateLimiter.PruningInvisibleExactlyWhen` | crank/sbCreateMarketEndpoint.ts:158-176 | at every point where an IP asks, however often at that instant, it is answered as if served alone, iff none of its requests arrives inside a window whose bucket a prune has dropped |
| `RateLimiter.PruningShowsWhenTheClockGoesBack` | crank/sbCreateMarketEndpoint.ts:165-169 | a run at the threshold of 10,000 in which, the clock set back, the prune admits a request the reference refuses |
| `RateLimiter.WindowBound` | crank/sbCreateMarketEndpoint.ts:160-174 | any half-open interval of one window length admits at most 2 * max(1, max) - 1 requests of an IP |
| `RateLimiter.RunAgrees` | crank/sbCreateMarketEndpoint.ts:158-176 | at every point the kept bucket is the reference's, or was dropped after its window |
| `RateLimiter.WindowBoundIsTight` | crank/sbCreateMarketEndpoint.ts:160-174 | and for every max >= 1 and window >= 2 that many can be admitted |
| `FinalizeCache.PersistentFinalizeCache.Load` | crank/finalizeCache.ts:107-145 | the entries are the first 100,000 usable ones of the file, or none if it cannot be read |
| `FinalizeCache.PersistentFinalizeCache.MaySuppressNow` | crank/finalizeCache.ts:152-154 | a skip is allowed iff the vault is settled, holds no collateral and has a positive mark that is not in the future and at most maxAge old |
| `FinalizeCache.PersistentFinalizeCache.ListEntries` | crank/finalizeCache.ts:187-190 | what a flush writes lists every entry once |
| `FinalizeCache.PersistentFinalizeCache.AddMark` | crank/finalizeCache.ts:157-161 | refused only when full and new |
| `FinalizeCache.PersistentFinalizeCache.PruneOld` | crank/finalizeCache.ts:169-179 | exactly the marks past the age go, and are counted |
| `FinalizeCache.PersistentFinalizeCache.FlushFile` | crank/finalizeCache.ts:185-210 | a failed flush leaves the old file and the cache dirty, a successful one makes the file read back as the entries |
| `FinalizeCache.LoadReadsBack` | crank/finalizeCache.ts:121-130 | a flushed file loads as the marks it was written from, in any order |
| `FinalizeCache.EventMeans` | crank/finalizeCache.ts:157-210 | what an add, a prune, a flush and a restart leave of any mark, and whether the cache is clean |
| `FinalizeCache.MarksAreTraced` | crank/finalizeCache.ts:97-210 | every mark in memory or on file was added at that time or was in the first file |
| `FinalizeCache.SuppressionIsBacked` | crank/finalizeCache.ts:65-91 | over all runs a skip means settled, no collateral, and a mark at most maxAge old made by an add of the run or held by its first file |
| `FinalizeCache.CleanMeansSaved` | crank/finalizeCache.ts:97-210 | memory differs from the file only while dirty; a crash after a successful flush loses nothing |
| `FinalizeCache.FlushedMarkIsHonoured` | crank/finalizeCache.ts:152-210 | an accepted, flushed mark skips every scan of a settled, empty vault for maxAge, through any adds, prunes, flushes and reloads |
| `FinalizeCache.PruningInvisibleExactlyWhen` | crank/finalizeCache.ts:157-179 | pruning changes no later answer iff no add finds the unpruned cache full and the pruned one not |
| `FinalizeCache.PruningCanShow` | crank/finalizeCache.ts:157-179 | a run in which pruning does change an answer |
| `FinalizeCache.ReloadSafeExactlyWhen` | crank/finalizeCache.ts:107-210 | reloading never turns a scan into a skip, at any point of any run, iff the first file holds no mark later than the clock |
| `FinalizeCache.FutureMarkIsUnsafe` | crank/finalizeCache.ts:85-88 | how a later mark outlives the honest one that replaced it |
| `FinalizeSweep.HandleVault` | crank/bot.ts:815-985 | when a vault is skipped, abandoned, left or recorded |
| `FinalizeSweep.EmptyScanMeans` | crank/bot.ts:851-985 | a scan is empty iff all four passes ran, found and sent nothing, and the last two created no accounts ahead |
| `FinalizeSweep.Sweep` | crank/bot.ts:809-1006 | a vault is recorded iff its four passes ran, found and did nothing; the skip and considered counts; flushes at least every 200 marks; the cache ends as that run of events |
| `FinalizeSweep.SkipsAreEarned` | crank/bot.ts:809-1006 | over any sequence of sweeps, cut short anywhere by crashes and resumed from the file, a skipped vault is settled, empty, and was scanned empty at most maxAge before or so marked in the first file |
| `FinalizeSweep.SweepAddsAreEarned` | crank/bot.ts:967-985 | every mark made by a sweep, however far it got, records an empty scan |
| `FinalizeSweep.RunAddsAreEarned` | crank/bot.ts:809-1006 | the same for every mark of every run of sweeps, crashes and reloads |
| `FpOracle.MedianIgnoresOrder` | crank/fpOracleRegistry.ts:242-247 | the median is permutation-invariant |
| `FpOracle.MedianIsRobust` | crank/fpOracleRegistry.ts:242-247 | with fewer than half the values arbitrary the median stays between the least and greatest of the rest |
| `FpOracle.HalfIsTooMany` | crank/fpOracleRegistry.ts:242-247 | for every sample there are as many arbitrary values again that push the median above all of it |
| `FpOracle.QuotesArePositive` | crank/fpOracleCrank.ts:138-157 | the quotes of a side are exactly its positive readings |
| `FpOracle.QuotesInOrder` | crank/fpOracleCrank.ts:154-157 | every venue counts in order, once for each positive answer |
| `FpOracle.PushableMeans` | crank/fpOracleCrank.ts:221-226 | a price may be pushed iff there are at least 3 quotes and their range is at most 2% of the median |
| `FpOracle.UnreliableMeans` | crank/fpOracleCrank.ts:205-207 | a reference is unreliable iff it has at least 2 quotes and their range is above 0.2% of the median |
| `FpOracle.TightSamplesAgree` | crank/fpOracleRegistry.ts:250-255 | a sample whose spread is within a limit lies within that limit of its median |
| `FpOracle.PushIsAgreed` | crank/fpOracleCrank.ts:221-228 | a pushable price comes from at least 3 positive quotes and is within 200 bps of itself of each |
| `FpOracle.ConfidenceCoversQuotes` | crank/fpOracleCrank.ts:228-236 | in micro-units every quote lies within twice the confidence (and rounding) of the pushed price, which rounds to 0 only below half a unit |
| `FpOracle.CoversExactlyWhen` | crank/fpOracleCrank.ts:228-236 | all quotes lie within the pushed, rounded confidence of the pushed, rounded price iff that price is no further from the midpoint than the confidence exceeds half the range |
| `FpOracle.MidpointIsNotEnough` | crank/fpOracleCrank.ts:228-236 | a pushable sample with its median at the midpoint and a quote outside the pushed confidence |
| `FpOracle.MidpointIsNotNeeded` | crank/fpOracleCrank.ts:228-236 | a pushable sample with its median off the midpoint and every quote inside |
| `FpOracle.ConfidenceMissesAQuote` | crank/fpOracleCrank.ts:228-236 | a pushable sample with a quote above pushed price plus confidence |
| `FpOracle.CompareWithReference` | crank/fpOracleCrank.ts:238-247 | the verify gate is judged iff the reference has 3 venues that agree within 20 bps, and then correctly |
| `FpOracle.GateReachesEveryVenue` | crank/fpOracleCrank.ts:238-247 | a sample within its gate is within the gate and 20 bps more of every verify venue |
| `FpOracle.TickFeed` | crank/fpOracleCrank.ts:175-347 | a tick aborts iff too few venues, a wide spread or no feed account; else exactly the agreed median is offered; one outcome counter moves |
| `FpOracle.RunFpOracleTick` | crank/fpOracleCrank.ts:351-376 | every feed up to a shutdown is ticked in its world, and counted once as pushed, aborted or failed by what its tick recorded, crashes as failed |
| `HermesBackoff.BackoffOn429` | crank/hermesBackoff.ts:38-45 | doubling up to the ceiling, streak cleared |
| `HermesBackoff.BackoffOnOk` | crank/hermesBackoff.ts:48-59 | halving toward base after three successes |
| `HermesBackoff.SettleTuples` | crank/bot.ts:625-707 | the inlined pacing is the helper's state machine on every run of outcomes, each wait is its pace and in range, errors are counted by class, and what tuplesProcessed counts |
| `HermesBackoff.ProcessedMeansSettledExactlyWhen` | crank/bot.ts:625-707 | the number reported as processed is the number settled iff no shutdown is seen before a tuple |
| `HermesBackoff.ProcessedCountsTheUntried` | crank/bot.ts:706 | a run that settles one tuple and reports two |
| `HermesBackoff.StaysInRangeExactlyWhen` | crank/hermesBackoff.ts:33-59 | all runs keep base <= current <= ceiling, streak below 3 and 0 at base, iff base <= ceiling |
| `HermesBackoff.StuckBelowBase` | crank/hermesBackoff.ts:38-59 | with base above ceiling one rate limit takes the pace below base for good |
| `HermesBackoff.Recovers` | crank/hermesBackoff.ts:48-59 | from current <= base * 2^k, 3k successes without a rate limit return to base |
| `HermesBackoff.RecoveryTakesThatLong` | crank/hermesBackoff.ts:48-59 | 3k - 1 do not |
| `HermesBackoff.BurstIsUndone` | crank/hermesBackoff.ts:38-59 | what n rate limits did, 3n successes undo, whatever the ceiling |
| `SweepQuarantine.Store.RecordFailure` | crank/sweepQuarantine.ts:66-77 | the new entry and what is reported |
| `SweepQuarantine.Store.DecideNow` | crank/sweepQuarantine.ts:58-64 | the decision on the entry held |
| `SweepQuarantine.Store.RecordSuccess` | crank/sweepQuarantine.ts:79-81 | the key is forgotten, nothing else |
| `SweepQuarantine.Store.Summary` | crank/sweepQuarantine.ts:83-91 | counts the keys a decision would hold or let through as a daily retry |
| `SweepQuarantine.Store.FromJson` | crank/sweepQuarantine.ts:98-109 | readable elements are taken, the last of a key winning |
| `SweepQuarantine.Store.ToJson` | crank/sweepQuarantine.ts:93-95 | lists every entry once |
| `SweepQuarantine.JsonRoundTrip` | crank/sweepQuarantine.ts:93-109 | a round trip restores the state and every later decision |
| `SweepQuarantine.ParsedSplits` | crank/sweepQuarantine.ts:102-107 | an unreadable element changes nothing else |
| `SweepQuarantine.KeysAreIndependent` | crank/sweepQuarantine.ts:58-81 | a key's entry depends on its own attempts alone |
| `SweepQuarantine.EntryReflectsAttempts` | crank/sweepQuarantine.ts:58-81 | the entry's count, last failure and quarantine time are those of the attempts allowed |
| `SweepQuarantine.QuarantinedExactlyWhen` | crank/sweepQuarantine.ts:58-77 | quarantined iff at least three failures since the last success; held back iff also less than a day since the last failure |
| `SweepQuarantine.TransitionReportedOnce` | crank/sweepQuarantine.ts:66-77 | the transition is reported iff the failure is the third in a row |
| `SweepQuarantine.RetriesAreADayApart` | crank/sweepQuarantine.ts:58-64 | attempts while quarantined come at least 24 h after the failure before |
| `SweepQuarantine.QuarantineNoticedExactlyWhen` | crank/sweepQuarantine.ts:58-77 | with any clock at all, a key is quarantined iff one of its failures in a row, from the third on, came at a time other than 0 |
| `SweepQuarantine.TimeZeroIsMistakenForFree` | crank/sweepQuarantine.ts:58-77 | a third failure at time 0: reported as a transition, not quarantined, and reported again |
| `SweepQuarantine.QuarantineKeyIsInjective` | crank/sweepQuarantine.ts:25-27 | two batches never share a key |

## Left out

- RPC, Anchor, Hermes, Switchboard and Crossbar calls, HTTP serving, file writing, logging and environment parsing: their answers are parameters.
- Address derivation: market addresses come from a function `pda` of the asset name; the lemma that needs more says what it assumes.
- Ed25519 and hashing: the verifier is an arbitrary predicate, as it is injected in the source.
- `localeCompare`: a comparison given as a parameter, with the order laws stated where a lemma needs them.
- Text matching in `isAlreadySettled`: its three expressions are reduced to what they extract; `classifySettleError` and `classifyHermesError` to the class they return.
- Confirmation errors: the source does not look at the confirmation's error field; a send here is delivered, dropped, or landed with its confirmation lost.
- Floating point: prices and spreads are reals, clock readings, marks and counts whole numbers. Overflow of 64-bit counters is not modelled, as the source uses BigInt or JavaScript numbers.
- Number coercions of a quarantine file (`Number(...)`): an element is given by the values that result.
- Object identity: a tuple or feed record held in a map is a value in a map field; the source mutates it through a reference.
- Order in which a JavaScript Map is walked: kept where an answer depends on it (the settle lanes, the loaded file), arbitrary elsewhere.
- `OptaSettleScheduler.RunOptaSettleCrank`: the endless loop is cut off after any number of turns.
- `FanoutExecution.RunSettleFanout`: error texts collected in the report are not modelled, nor programs' refusals other than of a settled vault.
- The Switchboard and first-party probes of the liveness loop, its catalogue and its publishing: they use the same two marking functions.
- `assertDisjoint`, `resolvePath` and `lookupFpFeed`: checks and lookups over a constant table.
- The sweep driver, the Switchboard oracle's retry schedule, the reclaim loop, the account cache, the pot-slot guard, the ladder generator, the account-creation budget and the probe, exec and watch scripts other than the payout baseline: smaller members, or claims the code does not make.
- The on-chain program, the web and mobile clients and their tooling.
