# MAYAChain node: signing, observing and encoding

A Dafny model of the parts of the MAYAChain node whose correctness is hardest to see from the code:
the outbound signing scheduler with its persistent store, the protobuf codec of the common types, the
block scanner's cursor, the observer's queue, TSS batching and signature encoding, share arithmetic,
the watched public keys and the keygen retries. `dafny verify dfyconfig.toml` checks all of it.

## Layout

| files | what they model |
|---|---|
| `SignerStore`, `Selection` | the signer's store; what one `SpawnSignings` call selects and starts |
| `Pipeline` | spawner, signing routines, arrivals and crashes as one transition system |
| `PipelineLocks`, `PipelineRetry`, `SignOnce` | the invariants of that system, kept by each step |
| `PipelineLimits` | exactly when the two store-level claims hold over all runs |
| `Varint`, `Wire`, `UnknownFields` | varints, the decoder loop, the grammar of skipped fields |
| `Messages`, `Marshal`, `UintText` | Asset, Coin, PubKeySet, Tx and Fee: decoding, sizes, the backward writers |
| `ScanPos`, `Scanner` | the stored scan position; the scan loop over any number of process lives |
| `Deck`, `Observer`, `DeckRuns` | the on-deck queue as values, as a class, and over whole runs with crashes |
| `Keysign`, `KeysignOrder` | what a tick sends; when arrival order matters |
| `KeysignServer`, `Signature` | queues over runs, batches and replies; R and S as 64 bytes |
| `Share`, `SharePrecision` | share arithmetic; its exact error bound |
| `PubKeys`, `Keygen` | the key list and its prune loop; retry heights |
| `Ordering`, `Outcome` | Go's string order and stable sorting; Option and Result |

## Reading the results

**The signing scheduler.** A label of the transition system carries every choice the code does not
make itself: map order, answers of the network and of the database, and who moves next. Three flags
of `Pipeline.Env` say what the surroundings may do. With all three set the system is the code as it
stands.

- Lock and semaphore safety hold for the code as it stands (`SafeOverRuns`, `ReplacedWhenDrained`,
  `NeverBlocks`).
- "At most one retry item per vault and chain" does not. `SpawnSignings` lists the store first and
  reads the locks later. A routine that finishes in between leaves the spawner with a stale list and
  a free lock. `OneRetryIff` proves that the claim holds over all runs exactly when no lock is
  released in that window.
- "Sign once" needs that too, and two more conditions: no delivery of an item whose key is still
  stored, and no broadcast error that counts as a round 7 keysign error. `SignOnceIff` proves both
  directions; each of the three failing runs is a lemma (`SignedTwice`, `BytesOverwritten`,
  `BytesLost`).

**Scanning and observing.** A crash can fall between any two steps that touch durable or shared
state, and the results are about any number of process lives. The scanner's cursor never passes a
block it has not handed on (`Scanner.NothingPassed`). The observer does lose what it was handed: it
takes an arrival from an unbuffered queue, then waits for the lock, and saves the deck last, and the
scanner may store its position meanwhile. `DeckRuns.Env` has a flag for each way to lose an arrival;
`NothingLostIff` proves that these three are all, with a run for each.

**Where the code and its comments differ**, the model follows the code:

- `FetchLastHeight` is documented to use a configured start height; `Start` then prefers a stored
  position beyond it (`Scanner.SkipIff`).
- `filterErrataTx` is documented to remove an undone transaction from the deck; it removes one
  occurrence per listing, and an internal transaction is on deck twice (`Deck.GoneIff`).
- A batch with an unknown signing algorithm fails as a whole and is signed nevertheless
  (`KeysignServer.CallerIsTold`).
- Sorting a long queue is documented to make all nodes send the same messages; it does not when one
  message is queued for two algorithms at the cut (`KeysignOrder.SameRequestsIff`).
- `getSignature` drops the sign of N - S when S exceeds N, and a long S overwrites R
  (`Signature.GetSignature`).

**Assumed of foreign code.** LevelDB is an ordered map with atomic batches, its value codec is
self-inverse, and derived keys are not empty. `sdk.Uint` has a self-inverse text codec, which
`UintText` shows for decimal text. `cosmos.Dec` has the rounding stated in `Share`, with its overflow
bounds as parameters. A keysign timeout panics, which is a crash.

## Model

| member | source | states |
|---|---|---|
| `SignerStore.ListingUnique` | bifrost/signer/storage.go:200-243 | What List returns depends on the stored map alone: two listings of one map are the same sequence |
| `SignerStore.TwoStableSorts` | bifrost/signer/storage.go:237-241 | The two stable sorts over key-ordered iteration give the order by height, then hash, then key, and lose nothing |
| `SignerStore.Store.Set` | bifrost/signer/storage.go:123-142 | A write of a retrieved item changes only the key it was read under, whatever was changed in the item; a failed one changes nothing |
| `SignerStore.Store.Batch` | bifrost/signer/storage.go:144-163 | All items are written in order in one step, or none when one cannot be encoded or the write fails |
| `SignerStore.ReadsBack` | bifrost/signer/storage.go:123-198 | A retrieved item, changed in any way and stored, is read back as changed; removed, it is gone; no other key shows a difference |
| `SignerStore.RemoveDropsPlace` | bifrost/signer/storage.go:195-243 | Removing a listed item, whatever was changed in it, takes just it out of the listing |
| `SignerStore.Store.List` | bifrost/signer/storage.go:200-243 | Exactly the unspent items, each with its key, in the unique order |
| `SignerStore.SetKeepsPlace` | bifrost/signer/storage.go:59-77 | Storing a listed item whose EdDSA key, retry flag, checkpoint or bytes changed leaves every item at its place in the list |
| `Selection.GatherRetries` | bifrost/signer/pipeline.go:101-108 | The map from vault and chain to its retry items in list order, with no other key |
| `Selection.TakeLone` | bifrost/signer/pipeline.go:110-128 | Exactly the retry items that are alone at their vault and chain, whatever the map order |
| `Selection.Select` | bifrost/signer/pipeline.go:101-136 | The lone retry items, then, in list order, the items of vaults and chains without a retry item |
| `Selection.SelectionAt` | bifrost/signer/pipeline.go:101-136 | An item is selected iff it is the only retry item of its vault and chain, or there is none |
| `Selection.SpawnLoop` | bifrost/signer/pipeline.go:159-212 | Each started item is the first of its unlocked vault and chain, no two share one, capacity is conserved, and a full pass leaves a vault and chain only locked, started or without capacity |
| `Selection.SpawnedPerVaultChain` | bifrost/signer/pipeline.go:101-198 | Per call, only the lone retry item can start if there is one, nothing if there are several, else only the first item in list order |
| `PipelineLocks.StepKeepsLockInv` | bifrost/signer/pipeline.go:138-232 | Every step of spawner, routines, arrivals and crashes keeps locks and tokens matched to routines |
| `PipelineLocks.SafeOverRuns` | bifrost/signer/pipeline.go:98-232 | In every state of every run: one routine per vault and chain, length = unfinished routines + tokens held by the spawner, routines within capacity, none of an older pipeline, and nothing held between calls |
| `PipelineLocks.ReplacedWhenDrained` | bifrost/signer/sign.go:226-239 | A pipeline is replaced only when no routine is left and every lock is free |
| `PipelineLocks.NeverBlocks` | bifrost/signer/pipeline.go:39-44 | In every run the lock send, the lock release and both token releases find their channel ready |
| `PipelineRetry.StepKeepsRetryInv` | bifrost/signer/sign.go:754-764 | Without a release in the window, each step keeps the retry items unique per vault and chain and tied to the routine at work |
| `PipelineLimits.OneRetryOverRuns` | bifrost/signer/pipeline.go:112-128 | Then, over every run with crashes: one retry item at most, the running one where a routine runs, and no listing ever shows several |
| `PipelineLimits.TwoRetries` | bifrost/signer/pipeline.go:99-157 | With such a release, a run that ends with two retry items at one vault and chain |
| `PipelineLimits.OneRetryIff` | bifrost/signer/pipeline.go:99-157 | The claim holds over all runs iff no lock is released between the listing and the reading of that lock |
| `SignOnce.StepIsFaithful` | bifrost/signer/sign.go:627-663 | From an invariant state, no step signs an item again whose bytes are stored, and a broadcast carries exactly those bytes |
| `SignOnce.SignedOnceFrom` | bifrost/signer/sign.go:627-663 | Over every later run the stored bytes stay the same and are the only ones broadcast, until the item is removed |
| `PipelineLimits.SignedTwice` | bifrost/signer/pipeline.go:99-157 | A run in which the spawner starts a copy listed before the bytes were stored, and it is signed again |
| `PipelineLimits.BytesLost` | bifrost/signer/sign.go:651-663 | A run in which a broadcast error taken for a round 7 error writes the item back without its bytes |
| `PipelineLimits.BytesOverwritten` | bifrost/signer/sign.go:245-268 | A run in which a repeated delivery overwrites stored bytes |
| `PipelineLimits.SignOnceIff` | bifrost/signer/sign.go:627-663 | Sign once holds over all runs iff none of the three can happen |
| `Varint.ReadEncode` | common/common.pb.go:628-638 | Reading an encoded 64-bit number gives it back and its length, whatever follows |
| `Varint.ReadIff` | common/common.pb.go:795-811 | The reader takes n bytes iff they are one run of at most ten bytes, minimal or not |
| `Varint.SovIsLength` | common/common.pb.go:768-770 | The bit-length formula is the number of bytes the encoder emits |
| `Varint.EncodeVarint` | common/common.pb.go:628-638 | The loop writes exactly the encoding just below the offset and touches nothing else |
| `Varint.ReadVarint` | common/common.pb.go:795-811 | The shift loop, with its 64-bit truncation and both errors, is the reference reader |
| `Wire.RunConcat` | common/common.pb.go:792-979 | Decoding a concatenation is decoding the parts one after the other |
| `Wire.SkippedFieldIsTransparent` | common/common.pb.go:957-973 | A skipped field between two parts of an input does not change the result |
| `Wire.SkipField` | common/common.pb.go:1726-1803 | The skip loop with its group depth, on every byte string, in bounds and terminating, is the recursive form, which takes at least one byte |
| `Wire.ReadField` | common/common.pb.go:792-979 | One round of the decoder loop: tag, wire type, payload, and every error, in bounds |
| `Wire.Unmarshal` | common/common.pb.go:792-979 | The decoder loop terminates on every byte string and is the fold over its fields |
| `UnknownFields.SkipIff` | common/common.pb.go:1726-1803 | Skipping takes n bytes iff those bytes are one well-formed field, groups nested and balanced included |
| `UnknownFields.UnknownFieldIsTransparent` | common/common.pb.go:957-973 | Any well-formed field with an unassigned number, put between two parts of a valid encoding, changes no decoded message |
| `Messages.RoundTripAsset` | common/common.pb.go:792-979 | Decoding the encoding of an Asset gives it back |
| `Messages.RoundTripCoin` | common/common.pb.go:981-1118 | The same for a Coin, negative decimals included |
| `Messages.RoundTripPubKeySet` | common/common.pb.go:1120-1235 | The same for a PubKeySet |
| `Messages.RoundTripTx` | common/common.pb.go:1237-1516 | The same for a Tx with any number of coins and gas entries |
| `Messages.RoundTripFee` | common/common.pb.go:1518-1637 | The same for a Fee |
| `Marshal.SizeAssetExact` | common/common.pb.go:639-664 | Size is the length of the encoding |
| `Marshal.SizeCoinExact` | common/common.pb.go:666-680 | Size is the length of the encoding |
| `Marshal.SizePubKeySetExact` | common/common.pb.go:682-697 | Size is the length of the encoding |
| `Marshal.SizeTxExact` | common/common.pb.go:699-738 | Size is the length of the encoding, nested messages included |
| `Marshal.SizeFeeExact` | common/common.pb.go:740-755 | Size is the length of the encoding |
| `Marshal.AssetToSizedBuffer` | common/common.pb.go:328-375 | The backward writer puts exactly the encoding at the end of the buffer and leaves the rest alone |
| `Marshal.CoinToSizedBuffer` | common/common.pb.go:392-423 | The same for a Coin |
| `Marshal.PubKeySetToSizedBuffer` | common/common.pb.go:440-460 | The same for a PubKeySet |
| `Marshal.TxToSizedBuffer` | common/common.pb.go:477-546 | The same for a Tx, whose coins and gas are written from the last to the first |
| `Marshal.FeeToSizedBuffer` | common/common.pb.go:563-593 | The same for a Fee |
| `Marshal.MarshalTx` | common/common.pb.go:462-470 | A buffer of Size bytes is filled down to offset 0 with the encoding |
| `Marshal.MarshalAsset` | common/common.pb.go:313-321 | The same for an Asset |
| `Marshal.MarshalCoin` | common/common.pb.go:377-385 | The same for a Coin |
| `Marshal.MarshalPubKeySet` | common/common.pb.go:425-433 | The same for a PubKeySet |
| `Marshal.MarshalFee` | common/common.pb.go:548-556 | The same for a Fee |
| `Marshal.TxIgnoresUnknownField` | common/common.pb.go:1237-1516 | An unassigned field between the encodings of two parts of a Tx leaves the decoded Tx the same |
| `UintText.DecimalIsSelfInverse` | common/common.pb.go:392-423 | Decimal text is a codec of the kind the round trips take for sdk.Uint |
| `ScanPos.FitsIff` | bifrost/blockscanner/leveldb_storage.go:42-47 | A position fits the eight-byte buffer iff it lies in [-2^55, 2^55) |
| `ScanPos.PositionRoundTrip` | bifrost/blockscanner/leveldb_storage.go:32-47 | Zigzag and varint together lose no int64 |
| `ScanPos.PutUvarint` | bifrost/blockscanner/leveldb_storage.go:44-45 | The write loop fills a prefix of the buffer with the encoding, and panics iff it does not fit |
| `ScanPos.ReadUvarint` | bifrost/blockscanner/leveldb_storage.go:38-39 | The read loop gives the number, or 0 for anything cut short or beyond 64 bits |
| `ScanPos.Storage.SetScanPos` | bifrost/blockscanner/leveldb_storage.go:42-47 | Saved positions are read back as they were; a panic or a failed write leaves the old one |
| `ScanPos.Storage.GetScanPos` | bifrost/blockscanner/leveldb_storage.go:32-40 | The position the stored bytes stand for |
| `Scanner.ResumeExact` | bifrost/blockscanner/blockscanner.go:284-332 | With a stored position and a consensus height the scan goes on after max(stored, consensus - lag) |
| `Scanner.SkipIff` | bifrost/blockscanner/blockscanner.go:103-114 | Exactly when a start leaves out blocks after the stored position, failed reads included; a start that reads the position never goes back |
| `Scanner.BlockScanner.ScanBlocks` | bifrost/blockscanner/blockscanner.go:190-272 | The loop does to counter, queue and stored position what the step function says, whatever happens on the way |
| `Scanner.LifeIsConsecutive` | bifrost/blockscanner/blockscanner.go:204-272 | One life fetches consecutive heights, hands on exactly the non-empty ones in order, except possibly the last, and stores only positions up to which it handed on everything |
| `Scanner.NothingPassed` | bifrost/blockscanner/blockscanner.go:204-272 | Over any number of lives, every height the stored position passed was empty or handed on by some life, or was left out by a start |
| `Scanner.EveryHeightSettled` | bifrost/blockscanner/blockscanner.go:204-332 | Without the last case when no life has a configured start, its reads work and the consensus height is within the lag |
| `Deck.ByHeightIsStable` | bifrost/observer/observe.go:303-306 | The sort is by height, and the transactions of each block keep their order |
| `Deck.ChunkingIff` | bifrost/observer/observe.go:307-326 | The chunks are the one way to cut into non-empty pieces of at most 100, all full but the last, that join up to the input |
| `Deck.EntryConserved` | bifrost/observer/observe.go:163-252 | The filtered transactions of an entry are those in chunks accepted as finalised plus those kept; an entry that waits keeps all of them, in order |
| `Deck.NextPass` | bifrost/observer/observe.go:176-201 | A kept entry is not filtered again, and while it waits is sent again iff some chunk was rejected before |
| `Deck.MergeAdds` | bifrost/observer/observe.go:261-292 | An arrival adds exactly its transactions to the deck |
| `Deck.EraseExact` | bifrost/observer/observe.go:461-479 | Each id loses as many occurrences as the block lists it; all other transactions stay, in order |
| `Deck.GoneIff` | bifrost/observer/observe.go:457-479 | An undone transaction is gone from an entry iff the block lists it at least as often as the entry holds it |
| `Deck.InternalStays` | bifrost/observer/observe.go:461-479 | A transaction held twice and listed once stays on deck |
| `Observer.Chunkify` | bifrost/observer/observe.go:302-328 | The cutting loop yields those chunks, each with the header of the entry |
| `Observer.Observer.ChunkifyAndSend` | bifrost/observer/observe.go:224-252 | Accepted chunks go out in order, and exactly the transactions of rejected ones come back |
| `Observer.Observer.SendDeck` | bifrost/observer/observe.go:163-222 | The new deck, the accepted chunks and the stored deck after one pass |
| `Observer.Observer.ProcessTxIn` | bifrost/observer/observe.go:260-296 | The arrival joins the first entry that can take it or becomes an entry, and the deck is saved or not |
| `Observer.Observer.FilterErrata` | bifrost/observer/observe.go:461-479 | The nested loops do to every entry what the errata rule says, and save nothing |
| `DeckRuns.PassConserves` | bifrost/observer/observe.go:163-222 | Per transaction, what a pass takes in, filters, drops, sends and keeps adds up |
| `DeckRuns.Conserved` | bifrost/observer/observe.go:163-299 | Over every run without a crash, each transaction was received exactly as often as it was accepted as finalised, filtered or dropped, or is in hand or on deck |
| `DeckRuns.LostInHand` | bifrost/observer/observe.go:259-293 | A run in which an arrival taken from the queue is lost with the process, though the store took every write and gave every read |
| `DeckRuns.LostUnsaved` | bifrost/observer/observe.go:293-295 | A run in which the save of an arrival fails and the process dies before another |
| `DeckRuns.LostUnread` | bifrost/observer/observe.go:141-149 | A run in which the stored deck cannot be read and the next pass saves over it |
| `DeckRuns.RunCovers` | bifrost/observer/observe.go:163-299 | Without these three, every step of every run keeps deck and store accounted for, through crashes inside passes and saves that fail and are repaired |
| `DeckRuns.NothingLostIff` | bifrost/observer/observe.go:141-299 | Nothing is lost over all runs iff no crash falls between taking an arrival and saving it, none finds a failed save of an arrival unrepaired, and no read of the stored deck fails |
| `DeckRuns.OneBlockOverRuns` | bifrost/observer/observe.go:279-288 | Outside the bundling chains no deck entry ever mixes blocks |
| `Keysign.TickPartitions` | bifrost/tss/tss_signer.go:246-259 | A tick splits a queue into sent and remaining tasks, none lost or duplicated, and sends as many as it may |
| `Keysign.SameMessages` | bifrost/tss/tss_signer.go:248-259 | Any arrival order of the same queue picks the same messages, as the same sequence when the queue is longer than a batch |
| `KeysignOrder.TieDiffers` | bifrost/tss/tss_signer.go:248-274 | For every queue whose message at the cut lies on both sides of it and has two algorithms, two arrival orders with different requests |
| `KeysignOrder.TieExists` | bifrost/tss/tss_signer.go:248-274 | There are such queues |
| `KeysignOrder.SameRequestsIff` | bifrost/tss/tss_signer.go:246-281 | Every arrival order of a queue gives the same messages per algorithm iff it has no such tie |
| `KeysignServer.FailAll` | bifrost/tss/tss_signer.go:334-346 | Every task of the batch is told the failure, in order |
| `KeysignServer.ToLocalSigner` | bifrost/tss/tss_signer.go:348-422 | Every way out answers every task, once and in order |
| `KeysignServer.FirstForIff` | bifrost/tss/tss_signer.go:383-403 | A task is told a signature iff there is one for its message, and only such a one |
| `KeysignServer.SendBatch` | bifrost/tss/tss_signer.go:261-281 | All replies of a batch, over both algorithms and every unknown one |
| `KeysignServer.RepliesExact` | bifrost/tss/tss_signer.go:261-281 | With u tasks of unknown algorithm, those get u replies each and the others u + 1 |
| `KeysignServer.OneReplyIff` | bifrost/tss/tss_signer.go:261-281 | A task of a known algorithm gets exactly one reply iff its batch has no unknown one |
| `KeysignServer.OwnReply` | bifrost/tss/tss_signer.go:348-422 | Among its replies is the answer to its own message from its own algorithm's request |
| `KeysignServer.CallerIsTold` | bifrost/tss/tss_signer.go:261-281 | The first reply, which is the one a caller gets, is that answer iff all algorithms of the batch are known, and else the failure |
| `KeysignServer.KeySign.Enqueue` | bifrost/tss/tss_signer.go:225-235 | The task goes to the end of its pool key's queue |
| `KeysignServer.KeySign.Tick` | bifrost/tss/tss_signer.go:236-259 | In any key order, every queue gives its batch and keeps its rest; empty queues go |
| `KeysignServer.NoneLostOrTwice` | bifrost/tss/tss_signer.go:216-259 | Over every run each task is queued or was sent exactly as often as it came, under its own pool key |
| `Signature.GetSignature` | bifrost/tss/tss_signer.go:288-317 | 64 bytes that decode to R and the low S iff both fit 32 bytes; the panics and input errors, each exactly |
| `Signature.LowSFacts` | bifrost/tss/tss_signer.go:300-306 | For 0 < S < N the written S is min(S, N - S), the same for N - S; it is low iff S <= N + N/2; a low S stays |
| `Signature.Canonical` | bifrost/tss/tss_signer.go:298-316 | Only one string encodes R and the low S, so S and N - S give the same bytes and a result is its own result |
| `Signature.InRange` | bifrost/tss/tss_signer.go:308-316 | For 0 < S < N the written S fits its half |
| `Share.NeverMore` | common/type_convert.go:19-25 | The share never exceeds the allocation, for all inputs |
| `Share.WholeShare` | common/type_convert.go:19-25 | With part >= total > 0 it is the whole allocation iff the numbers fit |
| `Share.SafeShareIs` | common/type_convert.go:27-57 | When the inputs fit, no later step overflows or divides by zero |
| `Share.Monotone` | common/type_convert.go:19-57 | It grows with the part and with the allocation |
| `SharePrecision.WithinOne` | common/type_convert.go:53-56 | It is within 1 of allocation * part / total for all parts up to the total and allocations up to 10^18 + 1414213562, through two rounded quotients and a final rounding |
| `SharePrecision.TooLarge` | common/type_convert.go:53-56 | One allocation further, an input whose error passes 1 |
| `SharePrecision.PreciseIff` | common/type_convert.go:53-56 | All allocations up to a bound are within 1 on all inputs iff the bound is at most 10^18 + 1414213562 |
| `PubKeys.PruneSound` | bifrost/pubkeymanager/pubkey_manager.go:274-289 | The loop, though it swaps and cuts what it ranges over, keeps keys distinct and removes no node key and no fetched key |
| `PubKeys.PruneKeeps` | bifrost/pubkeymanager/pubkey_manager.go:283-287 | The two most recent keys, and every entry moved into a gap, survive the pass |
| `PubKeys.PruneFixedIff` | bifrost/pubkeymanager/pubkey_manager.go:278-288 | A pass removes nothing iff all but the last two are protected |
| `PubKeys.PassCleanIff` | bifrost/pubkeymanager/pubkey_manager.go:239-289 | A pass with r removals puts exactly the last r keys, the last one first, where it removed; only protected ones and the last two are left iff each moved key that lands in reach of a pass is protected |
| `PubKeys.PassMisses` | bifrost/pubkeymanager/pubkey_manager.go:239-248 | A pass that leaves an unprotected key within its reach, because it moved |
| `PubKeys.PassesClean` | bifrost/pubkeymanager/pubkey_manager.go:274-289 | As many passes as there are keys leave only protected ones and the last two |
| `PubKeys.PubKeyManager.AddPubKey` | bifrost/pubkeymanager/pubkey_manager.go:178-202 | A new key is appended; a known one can become a signer's key but not stop being one |
| `PubKeys.PubKeyManager.AddNodePubKey` | bifrost/pubkeymanager/pubkey_manager.go:205-228 | The key is a node and signer key, added at the end if new |
| `PubKeys.PubKeyManager.RemovePubKey` | bifrost/pubkeymanager/pubkey_manager.go:231-248 | The entry is replaced by the last one and the list cut by one; an absent key changes nothing |
| `PubKeys.PubKeyManager.Prune` | bifrost/pubkeymanager/pubkey_manager.go:274-289 | The ranging loop is the recursive form and keeps keys distinct |
| `PubKeys.PubKeyManager.FetchPubKeys` | bifrost/pubkeymanager/pubkey_manager.go:250-290 | The list after a fetch, with both failing requests |
| `PubKeys.PubKeyManager.GetNodePubKey` | bifrost/pubkeymanager/pubkey_manager.go:149-158 | The first node key of the algorithm, or the empty key |
| `PubKeys.FetchKeeps` | bifrost/pubkeymanager/pubkey_manager.go:250-290 | After a fetch, pruning or not, all fetched keys and own vaults are watched, and all node keys stay |
| `PubKeys.NodeKeysStay` | bifrost/pubkeymanager/pubkey_manager.go:178-290 | Over every run of operations, others falling between the steps of a fetch included, keys stay distinct, and a node key stays until it is removed by name |
| `PubKeys.FetchedKeysStay` | bifrost/pubkeymanager/pubkey_manager.go:178-290 | Over every such run a watched key stays that nobody removes and every prune was given |
| `Keygen.TargetOnGrid` | bifrost/signer/sign.go:323-324 | The target is the block height plus a multiple of the interval and past the current height; at most one interval away iff the node is not behind the block, or by whole intervals |
| `Keygen.TargetsAdvance` | bifrost/signer/sign.go:323-348 | Each target is past the one before by at least an interval |
| `Keygen.RetriesAreFinite` | bifrost/signer/sign.go:326-329 | With fixed intervals at most churn / k - 1 retries are scheduled |
| `Keygen.RetriesReachBound` | bifrost/signer/sign.go:326-329 | Some run schedules that many |

## Left out

- HTTP and RPC bridge, chain clients, mimir and network lookups, metrics, logging: their answers are arbitrary.
- Address validation and derivation, constants tables, version switches, CLI and configuration: foreign calls or finite data.
- ProtoUint: its message has the shape of one field of Fee.
- Wire.SkipField: a length beyond the input is reported as an unexpected end, also where the Go index would wrap around and report an invalid length.
- Wire.ReadField: the same wrap-around.
- Wire.Unmarshal: inherits that error kind.
- Selection.SpawnLoop: one call in which no vault changes status; `Pipeline` lets every visit get another answer.
- isChainPaused and the health flag of the block scanner, the mempool scan: they touch neither the cursor nor what is handed on.
- Scanner.BlockScanner.ScanBlocks: the block height is not modelled beyond int64.
- filterObservations and filterBinanceMemoFlag: the result of filtering an entry is arbitrary, in `OneBlockOverRuns` up to heights.
- Observer.Observer.ChunkifyAndSend: the OnObservedTxIn callback is not modelled; nor is the count text of a TxIn.
- KeysignServer.FailAll: that a send may time out is not modelled.
- KeysignServer.SendBatch: every send of a reply is counted; that a reply channel holds one reply, so that a later send waits or times out, is not modelled.
- KeysignServer.RepliesExact: counts sends in that sense.
- KeysignServer.OneReplyIff: counts sends in that sense; `CallerIsTold` is about the one that arrives.
- KeysignServer.OwnReply: with an unknown algorithm in the batch the send may wait on a full channel.
- WaitGroup accounting, sleeps and the keysign timeout of RemoteSign.
- SharePrecision.PreciseIff: says nothing about a single allocation beyond the bound, of which some may still be within 1 on all inputs.
- GetUncappedShare for parts above the total: a part so large that the ratio rounds to zero gives zero.
- SafeSub: one comparison and a subtraction.
- PubKeys.PubKeyManager.AddPubKey: contract addresses and callbacks are not modelled.
- PubKeys.PubKeyManager.AddNodePubKey: the same.
- PubKeys.PubKeyManager.FetchPubKeys: runs as one operation; `NodeKeysStay` and `FetchedKeysStay` let others fall between its steps.
- Keygen.RetriesAreFinite: the wrap-around of a 64-bit duration is not modelled.
- Go map data races, and a failing mimir request in processTransactions, which ends the call before it starts.
