# Lexe node and app: verified core

Dafny models of the stateful core of the Lexe node and app, with proofs about
them. One module per component:

- **Payment database and sync** (`Payments`, `PaymentIndexName`, `Bitmap`,
  `DbState`, `PaymentDatabase`, `PaymentRead`, `PaymentSync`): the app's sorted
  payment vector with three bitmap indexes, its one-file-per-payment disk copy,
  the lookups by scroll position, and the two-phase sync from the user node.
- **Durability of channel state** (`MonitorReconcile`, `MonitorDurability`,
  `LateDriveWrites`, `EventHandoff`): channel monitors go to Google Drive and to Lexe's database,
  are acknowledged after both hold them, and are reconciled at boot with Google
  taking precedence; the persister waits for an event pass after every
  acknowledgement.
- **Google VFS** (`GvfsFileId`, `GoogleVfs`, `GvfsConcurrency`): a map from file
  id to bytes over an opaque blob store, by means of a complete cache behind a
  reader-writer lock.
- **Rolling version approval** (`ApprovedVersions`).
- **Supporting pieces**: the resync tasks (`ResyncTask`), the weak generator and
  the shuffle (`WeakRng`, `Shuffle`), the sealed-blob codec (`SealedCodec`), hex
  (`Hex`), the strict order check (`StrictOrder`), backoff (`Backoff`).

`dafny verify dfyconfig.toml` checks everything.

Code that updates objects or buffers in place is modelled by classes and methods
with loops. Protocols between tasks, with crashes, are step machines: a `Step`
datatype, `Enabled`, `Apply`, and theorems about every `Run`. Calls that may
panic return `Panics` instead of being excluded by a precondition. A remote call
that may fail is a nondeterministic choice inside the method that stands for it;
ghost counters of failures let the contracts say that operations fail only if a
request or a write did.

## Main results

1. In every run with retries, crashes at any point and reconciliation at boot,
   the monitor recovered for a channel is never older than the last version
   acknowledged for it, even if failed Lexe writes land late
   (`MonitorDurability.RecoveryIsDurable`, `NoRollback`). If failed *Drive*
   updates land late too, this holds for every run whose landings are safe
   (`LateDriveWrites.SafeRunsAreDurable`): not older than what is acknowledged
   for the channel, nor than an update of it that already counts as stored and
   may still be acknowledged. After any other landing some continuation rolls an
   acknowledged version back (`LandingSafeIff`), and such a landing is reachable
   (`LateLandingBreaksDurability`).
2. Against a fixed node of which the database is an earlier projection (the same
   keys up to its latest, equal finalized payments), an `Ok` sync leaves memory and disk equal to the node
   for every batch size and reports a change exactly when there was one, from
   every state that successful inserts, updates, note edits and syncs leave
   (`PaymentSync.SyncPayments`, `WriteKeepsUsable`); it panics only if some
   payment lacks a bit that it would remove, and is never `Ok` then. After a lost
   node request a later sync ends in the same memory. Over any
   sequence of syncs from a consistent start, a pending, not-junk payment has its index bit exactly if it
   was never junk since the database has it (`BitsAfterSyncs`), and a sync panics
   exactly when a payment that came out of junk earlier stops being pending and
   not junk (`NthSyncPanicsIff`).
3. Every scroll lookup equals filtering the reversed vector, including the
   rank-corrected finalized lookup (`DbState.LookupsAreNaive`).
4. Every interleaving of VFS operations refines a plain map, and never has two
   Drive files of one name (`GvfsConcurrency.RefinesPlainMap`, `NoDuplicates`);
   each call is one event between its begin and its end (`HistoryIsCalls`).
5. Reconciliation computes one merge for every iteration order, every stop in
   between and every rerun (`MonitorReconcile.CompareAndFix`, `RerunSameMerge`).
6. No monitor update is written before an event pass that began after the
   previous acknowledgement ended, with a fatal flag read as clear that had in
   truth not been set
   (`EventHandoff.WritesWaitForEvents`).
7. A revoked version is never approved again (`ApprovedVersions.NoResurrection`).
8. After any run of successful database writes, what is read back from disk is
   the vector in memory with rebuilt indexes (`PaymentRead.GoodRunReadsBack`).

## Where the code falls short of a promise

Each with a lemma or contract that states the exact condition.

- `update_pending_payment` keeps the indexes right if and only if the payment
  makes none of three unhandled transitions (`UpdateConsistentIff`).
- A sync in which a pending payment comes out of junk leaves it without its bit;
  the sync that finalizes it later hits an `assert!` (`SyncThenFinalizePanics`;
  exactly when: `NthSyncPanicsIff`).
- `update_payment_note` updates no index. It is right if and only if the edit
  leaves the payment's memberships alone (`NoteConsistentIff`); otherwise a later
  update can hit an `assert!` (`NoteThenUpdatePanics`).
- A disk write that fails inside `insert_new_payments` leaves bitmap bits beyond
  the vector; the same batch may be refused from then on
  (`FailedInsertBlocksRetry`) and the pending lookup may index out of bounds
  (`FailedInsertBreaksLookup`). A torn file makes the next start refuse the whole
  directory (`FailedInsertReload`).
- A payment file name with a plus sign, upper-case hex or missing zeroes is
  accepted (`PlusSignIsAccepted`); `CanonicalIff` says which names are canonical.
- The shutdown branch of the background processor persists the channel manager
  whatever the fatal flag says (`ShutdownPersistsDespiteFatal`): the last persist
  is skipped exactly if a pass has read the flag as set (`FinalPersistIff`).
- A Drive create or delete whose response is lost leaves the cache wrong
  (`CreateKeepsExactIff`, `DeleteKeepsExactIff`), and retrying such a create
  makes a duplicate (`RetryAfterLostCreate`).
- A copy of the channel manager in Lexe's database that does not decrypt stops
  the boot although Google's copy takes precedence (`DecryptManagerAndFix`, which
  says that, but for a refused token, boots stop without a write exactly for
  undecryptable copies).
- With nonempty yanked lists a revoked version can come back
  (`YankingAllowsResurrection`): after the yank, exactly when it leaves room or the
  version is newer than the yanking release (`YankReturnsIff`); by its own yank,
  exactly when it yanks something on the list and not itself (`YankerReturnsIff`).
- The examples in the documentation of `PaymentIndex`
  (common/src/ln/payments.rs:162-171) use a prefix `bc` that the code does not
  accept (`DocumentedPrefixIsRefused`); the model follows the code.

In debug builds `insert_new_payments` and `update_pending_payments` also recheck
all indexes (app-rs/src/payments.rs:154-169, :282) and panic on a stale one. All
statements here about panics are about release builds.

## Assumptions

- The chain monitor hands over versions of one channel in increasing order, and
  above what was recovered at boot.
- A write attempt to Lexe takes effect before the next boot or never. A Drive
  attempt takes effect before the persister moves on, or, if a crash interrupts it,
  before the next boot or never; `LateDriveWrites` drops this for Drive updates,
  which may there land any time before the next boot. A failed Drive create or delete has no effect; a
  failed Drive update may have one.
- Nobody else writes to the Drive root, and its file names are unique at init.
- The node's payments do not change during one sync, and payment ids are unique.
  The database is an earlier projection of the node: its keys are the node's keys
  up to its latest, and its finalized payments equal the node's.
- The database has fewer than 2^32 payments, since positions are cast to `u32`.
- A RoaringBitmap is a set of naturals; `rank(i)` counts members up to `i`,
  `select(k)` is the k-th smallest from zero.
- The 32 bytes of a payment id are one number below 2^256, read in the order in
  which the id is displayed; the comparison of ids within a kind is numeric.
- A failed write of a payment file leaves that file in any state and all others
  alone.

## Model

| member | source | states |
|---|---|---|
| `DbState.FinalizedLookupIsNaive` | app-rs/src/payments.rs:668-713 | the rank-corrected lookup is the scroll-index-th finalized payment from the newest, never reaches its `expect`, and is `None` exactly when out of range |
| `DbState.ReverseRankIsNaive` | app-rs/src/payments.rs:636-662 | reversed rank plus `select` on an index built for a filter is the naive reverse-filter-nth for it |
| `DbState.LookupsAreNaive` | app-rs/src/payments.rs:614-777 | all five scroll lookups agree with their naive forms in every consistent state, without panic |
| `DbState.VecIdxFinds` | app-rs/src/payments.rs:598-611 | the `vec_idx` returned with a payment finds that payment, and it passes the filter |
| `PaymentRead.VecIdxIsStable` | app-rs/src/payments.rs:598-611 | a position names the payment with the same index after every later run of writes |
| `DbState.ConsistentIntegrity` | app-rs/src/payments.rs:397-447 | the integrity facts: not-junk indexes are subsets of the pending and finalized positions, and a payment is junk exactly when in neither |
| `DbState.Find` | app-rs/src/payments.rs:588-596 | the search by payment index returns a position with that index, and fails only if there is none |
| `Bitmap.SelectEnumeration` | app-rs/src/payments.rs:655-658 | `select` reads off any ascending enumeration of the set, and its size is the enumeration's length |
| `Bitmap.RankOfSelect` | app-rs/src/payments.rs:689-692 | `rank` counts and `select` undo each other |
| `Payments.StrictlySortedUnique` | app-rs/src/payments.rs:529-548 | a strictly sorted vector is determined by its elements |
| `Payments.JunkIs` | common/src/ln/payments.rs:274-297 | exactly the unpaid inbound invoices without an amount or without text are junk; empty text is no text |
| `PaymentIndexName.ParseFormat` | common/src/ln/payments.rs:539-580 | parsing the displayed form of an index gives the index |
| `PaymentIndexName.CanonicalIff` | common/src/ln/payments.rs:539-580 | a name that parses is the one its index is displayed as exactly when it has full width, no sign and lower-case digits |
| `PaymentIndexName.PlusSignIsAccepted` | common/src/time.rs:146-151 | a second name parses to the same index |
| `PaymentIndexName.FormatInjective` | common/src/ln/payments.rs:571-580 | different indexes have different file names |
| `PaymentIndexName.NameFields` | common/src/ln/payments.rs:571-615 | the fields of a displayed index at their fixed places, with the prefix of each kind |
| `PaymentIndexName.DocumentedPrefixIsRefused` | common/src/ln/payments.rs:162-171 | no name with the documented prefix parses |
| `PaymentIndexName.IdNameOrder` | common/src/ln/payments.rs:669-693 | ids compare as their strings do |
| `PaymentIndexName.NameOrder` | common/src/ln/payments.rs:565-580 | the string order of displayed indexes is the order of the indexes |
| `StrictOrder.IsStrictTotalOrder` | common/src/iter.rs:28-57 | true exactly when every adjacent pair compares as less; incomparable pairs fail |
| `StrictOrder.IsStrictTotalOrderByKey` | common/src/iter.rs:59-67 | the same on keys |
| `StrictOrder.ChainCoversAllPairs` | common/src/iter.rs:10-57 | for a transitive comparison the adjacent check covers all pairs |
| `PaymentDatabase.Ffs.Write` | app-rs/src/ffs.rs:110-116 | a success sets one file; a failure touches at most that file |
| `PaymentDatabase.AppendKeepsConsistent` | app-rs/src/payments.rs:214-261 | appending a sorted, newer batch keeps the vector sorted and the bitmaps equal to rebuilt ones |
| `PaymentDatabase.WriteAllKeepsDisk` | app-rs/src/payments.rs:171-177 | writing the batch keeps disk equal to memory |
| `PaymentDatabase.PaymentDb.InsertNewPayments` | app-rs/src/payments.rs:185-264 | exactly which batches are refused, with memory and disk unchanged; the whole new state on `Ok`; the bits and files left behind by a failed write or a bit already set; fails to write exactly if a write failed |
| `PaymentDatabase.PaymentDb.IndexAndWrite` | app-rs/src/payments.rs:214-258 | bits before file, payment by payment, and the state at every stop |
| `PaymentDatabase.PaymentDb.IndexPayment` | app-rs/src/payments.rs:222-252 | sets the bits of one payment, or reports that one was already set and says which were set before |
| `PaymentDatabase.FailedInsertBlocksRetry` | app-rs/src/payments.rs:216-258 | after a failed write the batch can be inserted again exactly when everything reached is finalized junk |
| `PaymentDatabase.FailedInsertBreaksLookup` | app-rs/src/payments.rs:216-260 | after a failed write the newest-pending lookup panics exactly when a pending payment had been reached |
| `PaymentDatabase.PaymentDb.UpdatePendingPayment` | app-rs/src/payments.rs:287-358 | the new state and file, the unchanged case, the failed write, and every panic with the bits and the file it leaves |
| `PaymentDatabase.UpdateConsistentIff` | app-rs/src/payments.rs:314-355 | from a consistent state no `assert!` fires, and the result is consistent exactly for handled transitions |
| `PaymentDatabase.PaymentDb.UpdatePendingPayments` | app-rs/src/payments.rs:268-285 | applies the updates in order, counts the changes, stops at the first failure or panic, with memory and disk at every stop |
| `PaymentDatabase.PaymentDb.UpdatePaymentNote` | app-rs/src/payments.rs:360-375 | an unknown index changes nothing; otherwise exactly that payment's note becomes the given one, in memory first, then in its file |
| `PaymentDatabase.NoteConsistentIff` | app-rs/src/payments.rs:360-375 | the indexes stay right exactly when text neither appears on nor vanishes from a payment whose junk status depends on it |
| `PaymentDatabase.NoteThenUpdatePanics` | app-rs/src/payments.rs:318-347 | exactly when the next update of a payment after a note edit hits an `assert!` |
| `PaymentRead.SortByIndex` | app-rs/src/payments.rs:529-530 | sorted, and a permutation |
| `PaymentRead.DedupByIndex` | app-rs/src/payments.rs:531-532 | strictly sorted, nothing new, and every index still present |
| `PaymentRead.FromUnsortedVec` | app-rs/src/payments.rs:529-548 | a consistent state with one of the given payments per given index |
| `PaymentRead.Visit` | app-rs/src/payments.rs:486-524 | succeeds exactly when every recognized file holds the payment its name says, and then collects exactly those; else it names the first offending file and why |
| `PaymentRead.Read` | app-rs/src/payments.rs:486-528 | for every visiting order, reads back exactly the vector that the directory mirrors, with rebuilt indexes; unrecognized names are skipped |
| `PaymentRead.ReadIsUnique` | app-rs/src/payments.rs:154-169 | a directory that mirrors a vector can only be read as that vector with rebuilt indexes |
| `PaymentRead.EffectIs` | app-rs/src/payments.rs:185-375 | after a write the inserted payments, the updated payment or the edited note are what was asked for, and nothing else changed |
| `PaymentRead.EffectKeepsMirror` | app-rs/src/payments.rs:171-375 | every successful insert, update or note edit keeps disk equal to memory |
| `PaymentRead.EffectConsistentIff` | app-rs/src/payments.rs:185-375 | a successful write keeps the indexes right exactly when it makes no unhandled transition |
| `PaymentRead.GoodRunReadsBack` | app-rs/src/payments.rs:154-528 | after any run of successful writes the state read back is the vector in memory with rebuilt indexes, hence the state in memory exactly when that is consistent |
| `PaymentRead.SafeRunReadsBack` | app-rs/src/payments.rs:154-528 | from a consistent start, runs of index-safe writes read back as they are in memory |
| `PaymentRead.FailedInsertReload` | app-rs/src/payments.rs:254-258 | after a failed write a reload is refused exactly when the failed file is there and unacceptable; else the written part comes back, and that file's payment if it is there |
| `PaymentSync.AfterIsSuffix` | app-rs/src/payments.rs:1135-1163 | the payments that the node returns from are a suffix, cut exactly after the start index |
| `PaymentSync.AfterAdvances` | app-rs/src/payments.rs:905-927 | moving the start to the last payment received leaves exactly those not yet received |
| `PaymentSync.BatchIsInsertable` | app-rs/src/payments.rs:905-922 | every batch from the node is sorted and newer than the database |
| `PaymentSync.SyncNewPayments` | app-rs/src/payments.rs:889-931 | terminates for every positive batch size; on `Ok` exactly the newer payments were added, and their number is returned; on `Err` which part was added, with memory and disk |
| `PaymentSync.AnswersForIds` | app-rs/src/payments.rs:1116-1132 | asking for the pending ids yields the node's versions of the pending payments, in order |
| `PaymentSync.RefreshPrefix` | app-rs/src/payments.rs:850-878 | memory and change count after refreshing any prefix, in closed form |
| `PaymentSync.RefreshPanicsIff` | app-rs/src/payments.rs:287-358 | the updates of a sync hit an `expect` or `assert!` exactly when some payment lacks its not-junk bit and needs it removed |
| `PaymentSync.SyncPendingPayments` | app-rs/src/payments.rs:826-883 | chunking does not matter: at every end, `Ok`, `Err` or panic, memory and disk are those of one run of updates over the pending payments up to a point |
| `PaymentSync.FinalState` | app-rs/src/payments.rs:795-822 | refreshed and extended memory in closed form, again a legal start, and right exactly when each position's bits are right or get set right |
| `PaymentSync.ConsistentStart` | app-rs/src/payments.rs:314-355 | from a consistent start nothing is stuck, and the indexes end right exactly without unhandled transitions |
| `PaymentSync.WriteKeepsUsable` | app-rs/src/payments.rs:185-375 | every successful insert, update or note edit that turns no finalized payment pending leaves a legal start for a sync |
| `PaymentSync.KeptAllIff` | app-rs/src/payments.rs:320-350 | both not-junk indexes after a sync are exact exactly when, position by position, none is missing for good and none is stale for good |
| `PaymentSync.BothPhases` | app-rs/src/payments.rs:795-822 | both phases composed: vector, disk, indexes, counts |
| `PaymentSync.SyncPayments` | app-rs/src/payments.rs:795-822 | from every state that successful writes and syncs leave: an `Ok` sync makes memory and disk equal to the node and reports a change exactly when there was one; panics only if a payment is stuck, never `Ok` then; fails exactly if a request or a write failed; after a failed request a later sync is legal and has the same goal; after a panic disk mirrors what was refreshed |
| `PaymentSync.RefreshedAgain` | app-rs/src/payments.rs:843-878 | stopping anywhere in the pending phase, a later sync ends in the same memory and panics exactly if this one would have |
| `PaymentSync.AppendedAgain` | app-rs/src/payments.rs:899-927 | likewise anywhere in the new-payments phase |
| `PaymentSync.ReloadAfterPanic` | app-rs/src/payments.rs:486-548 | what is read back after a panic is a consistent start from which nothing is stuck |
| `PaymentSync.BitsAfterSyncs` | app-rs/src/payments.rs:795-931 | after any sequence of syncs exactly the payments never seen as junk have their not-junk bit |
| `PaymentSync.SyncsConsistentIff` | app-rs/src/payments.rs:795-931 | the indexes are right after it exactly when no pending payment came out of junk |
| `PaymentSync.NthSyncPanicsIff` | app-rs/src/payments.rs:329-338 | which syncs of a sequence meet the `assert!`, in terms of what the node reported over time |
| `PaymentSync.SyncThenFinalizePanics` | app-rs/src/payments.rs:329-338 | out of junk in one sync, finalized in the next: the second meets the `assert!` |
| `MonitorReconcile.UpsertToGdriveAndLexe` | node/src/persister.rs:1241-1292 | `Ok` means both stores hold the file; on `Err` each holds it or what it held before; attempts are bounded by the retries; which error, by which attempts failed |
| `MonitorReconcile.Merge` | node/src/persister.rs:811-897 | Google's entries unaltered, plus those only Lexe has |
| `MonitorReconcile.CompareAndFix` | node/src/persister.rs:811-897 | on `Ok` both stores equal the merge and it is what is returned; every stop in between is one from which a rerun reaches the same; equal stores cause no write; fails exactly if a request failed |
| `MonitorReconcile.RerunSameMerge` | node/src/persister.rs:811-897 | the merge is the same from every intermediate state |
| `MonitorReconcile.DecryptManagerAndFix` | node/src/persister.rs:696-795 | Google's copy is never altered, nothing undecryptable is copied, both copies agree on `Ok`, and but for a refused token it stops without a write exactly when a copy does not decrypt |
| `MonitorReconcile.Stores.CreateGoogle` | gdrive/src/gvfs.rs:291-316 | refuses existing ids; a failure has no effect |
| `MonitorReconcile.Stores.UpsertGoogle` | gdrive/src/gvfs.rs:319-349 | a success stores the file; a failure may have stored it only over an existing one |
| `MonitorDurability.StepKeepsInv` | lexe-ln/src/channel_monitor.rs:78-194 | every step of persister, stores, crash and boot keeps the invariant on both stores |
| `MonitorDurability.RecoveryIsDurable` | node/src/persister.rs:528-565 | when a boot completes, both stores agree on the settled or in-flight version of every channel, never older than the last acknowledged |
| `MonitorDurability.AckedInBothStores` | lexe-ln/src/channel_monitor.rs:148-178 | at any moment Google holds at least the acknowledged version, and so does Lexe unless a stray write landed |
| `MonitorDurability.NoRollback` | node/src/persister.rs:1120-1292 | acknowledged versions never go back, through any number of crashes and boots |
| `MonitorDurability.QueueConserved` | lexe-ln/src/channel_monitor.rs:78-114 | between boot and crash, the queue and the updates handed over are the updates acknowledged, in order, and the remaining queue |
| `MonitorDurability.AcksRecorded` | lexe-ln/src/channel_monitor.rs:165-178 | what counts as acknowledged per channel is exactly what was |
| `MonitorDurability.HeadIsPersisted` | lexe-ln/src/channel_monitor.rs:148-178 | when nothing fails the head of the queue ends up in both stores and acknowledged |
| `MonitorDurability.LegGivesUp` | node/src/persister.rs:1247-1284 | each store is tried once and retried five times, then given up |
| `MonitorDurability.GivenUpIsNotAcked` | lexe-ln/src/channel_monitor.rs:157-163 | an update given up, or refused a token, is never acknowledged in its session |
| `MonitorDurability.FailedLexeWriteMayLand` | node/src/persister.rs:1274-1284 | a failed Lexe write can land at any time until the next boot |
| `MonitorDurability.BootCompletes` | node/src/persister.rs:844-892 | when nothing fails a boot gets through all its fixes |
| `MonitorDurability.OnlyBootIsLeft` | node/src/persister.rs:844-892 | after a crash or a failed fix only another boot can follow |
| `MonitorDurability.BootReachesMerge` | node/src/persister.rs:811-897 | boot steps, in any order and with interrupted boots between, reach the merge of the stores at the start |
| `LateDriveWrites.SafeRunsAreDurable` | node/src/persister.rs:1247-1272 | recovery is durable in every run whose late Drive landings are all safe |
| `LateDriveWrites.LandingSafeIff` | node/src/persister.rs:1247-1272 | a landing is safe exactly when no continuation with safe landings rolls an acknowledged version back |
| `LateDriveWrites.UnsafeLandingLoses` | node/src/persister.rs:1247-1292 | after an unsafe landing ordinary steps alone lead to a boot that recovers an older version |
| `LateDriveWrites.LateLandingBreaksDurability` | node/src/persister.rs:1247-1272 | an unsafe landing is reachable |
| `EventHandoff.StepKeepsInv` | lexe-ln/src/background_processor.rs:103-185 | every step of the persister and the processor keeps the ticket invariant |
| `EventHandoff.ReadingsAreTrue` | lexe-ln/src/background_processor.rs:158-160 | in every run each reading of the fatal flag tells whether it had been set before |
| `EventHandoff.WritesWaitForEvents` | lexe-ln/src/channel_monitor.rs:78-194 | update k+1 starts only after a whole event pass that began after update k was acknowledged and read the flag before it was set |
| `EventHandoff.CleanPass` | lexe-ln/src/background_processor.rs:108-169 | a pass that finds the flag clear answers everyone waiting when it began |
| `EventHandoff.RoundTrip` | lexe-ln/src/channel_monitor.rs:148-194 | when nothing fails an acknowledged update is followed by a pass, its reply and the next update |
| `EventHandoff.EndsAreCaused` | lexe-ln/src/background_processor.rs:158-226 | in every run, exactly which steps stop the persister and end the processor |
| `EventHandoff.PersistsAsOftenAsAsked` | lexe-ln/src/background_processor.rs:171-185 | the loop persists the manager exactly as often as a completed pass asks for it |
| `EventHandoff.StoppedIsFinal` | lexe-ln/src/channel_monitor.rs:96-109 | a stopped persister never writes again |
| `EventHandoff.WaitingLeavesOnlyByReply` | lexe-ln/src/channel_monitor.rs:183-189 | in every run, every update before the current one was answered and its reply never lost |
| `EventHandoff.LostReplyStops` | lexe-ln/src/channel_monitor.rs:183-189 | once its reply is lost, a waiting persister never starts another update |
| `EventHandoff.LoopPersistAfterClearFlag` | lexe-ln/src/background_processor.rs:132-185 | in the loop the channel manager is persisted only right after a pass that read the flag before it was set |
| `EventHandoff.FinalPersistIff` | lexe-ln/src/background_processor.rs:132-246 | in every run the last persist is skipped exactly when a pass read the flag as set, and nothing is persisted after such a pass |
| `EventHandoff.ShutdownPersistsDespiteFatal` | lexe-ln/src/background_processor.rs:221-246 | a run in which the manager is persisted with the flag set |
| `GvfsFileId.EncodeIff` | gdrive/src/gvfs_file_id.rs:52-98 | a file id encodes exactly when both parts are nonempty and slash-free |
| `GvfsFileId.DecodeEncode` | gdrive/src/gvfs_file_id.rs:41-98 | decoding the encoded name gives the id |
| `GvfsFileId.EncodeDecode` | gdrive/src/gvfs_file_id.rs:41-98 | encoding a decoded name gives the name, and decoding succeeds exactly on valid names |
| `GvfsFileId.JoinInjective` | gdrive/src/gvfs_file_id.rs:89-98 | different ids have different names |
| `GvfsFileId.KnownNames` | gdrive/src/gvfs_file_id.rs:52-98 | dirname before filename, and the error of each kind of malformed name |
| `GvfsFileId.IdTotal` | common/src/api/vfs.rs:27-45 | the derived order is total |
| `GvfsFileId.IdTransitive` | common/src/api/vfs.rs:27-45 | and transitive |
| `GvfsFileId.InDirAboveBound` | gdrive/src/gvfs.rs:395-401 | nothing of a directory is below its scan's lower bound |
| `GvfsFileId.ScanStops` | gdrive/src/gvfs.rs:406-409 | once another dirname appears, none of the directory follows |
| `GoogleVfs.ExactIsOneToOne` | gdrive/src/gvfs.rs:67-82 | an exact cache is one-to-one, and no name exists twice in Drive |
| `GoogleVfs.AbsentIsAbsent` | gdrive/src/gvfs.rs:71-75 | absence from the cache is absence from the store, both ways |
| `GoogleVfs.CreateExact` | gdrive/src/gvfs.rs:291-316 | create plus cache insert keeps the cache exact and adds one entry to the abstract map |
| `GoogleVfs.UpdateExact` | gdrive/src/gvfs.rs:319-330 | an update changes one entry of the abstract map and no other |
| `GoogleVfs.DeleteExact` | gdrive/src/gvfs.rs:353-379 | delete plus cache removal removes one entry |
| `GoogleVfs.CreateKeepsExactIff` | gdrive/src/gvfs.rs:301-313 | the cache survives a create exactly when the response tells what happened |
| `GoogleVfs.RetryAfterLostCreate` | gdrive/src/gvfs.rs:331-346 | after a create that took effect and was reported as failed, the next successful upsert makes a duplicate that no cache can describe |
| `GoogleVfs.UpsertExact` | gdrive/src/gvfs.rs:319-349 | on an exact cache a successful upsert sets one entry and stays exact |
| `GoogleVfs.DeleteKeepsExactIff` | gdrive/src/gvfs.rs:368-376 | likewise for a delete |
| `GoogleVfs.RangeFrom` | gdrive/src/gvfs.rs:401-406 | the cached keys from the bound on, ascending |
| `GoogleVfs.ScanDirectory` | gdrive/src/gvfs.rs:395-414 | all and only the cached files of the directory, in order |
| `GoogleVfs.BuildCache` | gdrive/src/gvfs.rs:215-238 | succeeds exactly when every file is binary with a valid name, and the cache is then exact; else which of the two fails |
| `GoogleVfs.InitFromClient` | gdrive/src/gvfs.rs:135-255 | network mismatch refused; on `Ok` an exact cache of the root used, and the root to persist exactly if it is not the given one |
| `GoogleVfs.Vfs.FileExists` | gdrive/src/gvfs.rs:258-260 | whether the abstract map has the file |
| `GoogleVfs.Vfs.GetFile` | gdrive/src/gvfs.rs:263-288 | what the abstract map holds; a missing file is no error |
| `GoogleVfs.Vfs.CreateFile` | gdrive/src/gvfs.rs:291-316 | adds the file, or refuses exactly the duplicates, or fails without effect |
| `GoogleVfs.Vfs.UpsertFile` | gdrive/src/gvfs.rs:319-349 | on any sound cache the cache alone decides between update and create; on an exact one it sets the file, and a failure may have set it only if it existed |
| `GoogleVfs.Vfs.DeleteFile` | gdrive/src/gvfs.rs:353-379 | removes the file, or reports exactly the missing ones, or fails without effect |
| `GoogleVfs.Vfs.GetDirectory` | gdrive/src/gvfs.rs:382-442 | all and only the files of the directory with their data, in filename order; the singleton directory is refused |
| `GvfsConcurrency.StepKeepsInv` | gdrive/src/gvfs.rs:84-105 | every lock, lookup, remote, cache and unlock step is a stutter or one event of a plain map |
| `GvfsConcurrency.RefinesPlainMap` | gdrive/src/gvfs.rs:258-442 | in every interleaving all replies are those of a plain map, and the Drive files hold that map |
| `GvfsConcurrency.HistoryIsCalls` | gdrive/src/gvfs.rs:258-442 | the events of a task are its calls in order, but for one that may be in progress |
| `GvfsConcurrency.CallLogsOnce` | gdrive/src/gvfs.rs:258-442 | a call is exactly one event, between its begin and its unlock |
| `GvfsConcurrency.FailuresAreReal` | gdrive/src/gvfs.rs:263-442 | in every run the calls answered as failed are exactly those whose remote call failed, in order |
| `GvfsConcurrency.NoFailureNoFailed` | gdrive/src/gvfs.rs:263-442 | without a failing remote call no call is answered as failed |
| `GvfsConcurrency.CallCompletes` | gdrive/src/gvfs.rs:263-442 | while nobody holds the lock any call can run to an answer that is no failure |
| `GvfsConcurrency.NoDuplicates` | gdrive/src/gvfs.rs:92-104 | no name exists twice at any moment; without a writer the cache is exact |
| `GvfsConcurrency.RemovedIsStillCached` | gdrive/src/gvfs.rs:374-376 | the `expect` on removing a deleted file from the cache never fires |
| `GvfsConcurrency.ListingIsSnapshot` | gdrive/src/gvfs.rs:382-442 | a listing put together by separate downloads is a snapshot of one state |
| `ApprovedVersions.Irreflexive` | node/src/approved_versions.rs:50-52 | no version precedes itself (section 11 of Semantic Versioning 2.0.0) |
| `ApprovedVersions.Transitive` | node/src/approved_versions.rs:50-52 | precedence is transitive |
| `ApprovedVersions.Total` | node/src/approved_versions.rs:50-52 | precedence is total |
| `ApprovedVersions.NumbersFirst` | node/src/approved_versions.rs:50-52 | major, then minor, then patch, whatever follows (section 11 of Semantic Versioning 2.0.0) |
| `ApprovedVersions.PreReleaseFirst` | node/src/approved_versions.rs:50-52 | a pre-release precedes its release; pre-releases compare by their fields |
| `ApprovedVersions.FieldsDecide` | node/src/approved_versions.rs:50-52 | the first different field decides, and a proper prefix precedes |
| `ApprovedVersions.FieldKinds` | node/src/approved_versions.rs:50-52 | numeric fields as numbers, others as strings, numeric first |
| `ApprovedVersions.KeepNewestIs` | node/src/approved_versions.rs:131-138 | what is kept has the right size, is unchanged, and is newer than all that is dropped |
| `ApprovedVersions.KeepNewestUnique` | node/src/approved_versions.rs:131-138 | that description fits one map only |
| `ApprovedVersions.ApprovedVersions.PopFirst` | node/src/approved_versions.rs:132-134 | removes the oldest version |
| `ApprovedVersions.ApprovedVersions.ApproveAndRevoke` | node/src/approved_versions.rs:76-150 | each error exactly when due; on `Ok` the newest three of old plus current minus yanked, kept and revoked partition them, rolling revocations from the oldest on, `updated` exactly when the list changed |
| `ApprovedVersions.ApprovedVersions.RevokeYanked` | node/src/approved_versions.rs:111-128 | removes the yanked versions, and fails exactly when one has an unknown measurement |
| `ApprovedVersions.NewMajorIsProvisioned` | node/src/approved_versions.rs:130-148 | a release with a new major version is provisioned on every list |
| `ApprovedVersions.ProvisionKeepsRatchet` | node/src/approved_versions.rs:130-148 | once something was revoked the list is full and all revoked versions are older than all approved ones |
| `ApprovedVersions.NoResurrection` | node/src/approved_versions.rs:76-150 | over any sequence of successful provisions a revoked version is never approved again |
| `ApprovedVersions.ReturnsIff` | node/src/approved_versions.rs:111-148 | a release not on the list gets onto it exactly when it does not yank itself and its yanks leave room or something older |
| `ApprovedVersions.YankerReturnsIff` | node/src/approved_versions.rs:111-148 | a revoked version brings itself back exactly when it yanks something on the list and not itself |
| `ApprovedVersions.YankReturnsIff` | node/src/approved_versions.rs:111-148 | after a yank a revoked version can return exactly when room is left or it is newer than the yanking release |
| `ApprovedVersions.YankingAllowsResurrection` | common/src/constants.rs:12-17 | with yanked versions the claim fails |
| `ResyncTask.StepKeepsInv` | lexe-ln/src/sync.rs:43-96 | every step of a sync task keeps the waiter invariant |
| `ResyncTask.NotifiedAfterOwnSync` | lexe-ln/src/sync.rs:43-96 | a waiter is notified at most once, after a successful sync that started after its receipt |
| `ResyncTask.WaitersSurvive` | lexe-ln/src/sync.rs:117-186 | a received waiter is held through failures until it is notified |
| `ResyncTask.SuccessNotifiesAll` | lexe-ln/src/sync.rs:83-90 | a successful sync notifies everyone held |
| `ResyncTask.SyncServesEarlierRequests` | lexe-ln/src/sync.rs:43-96 | whoever had asked when a sync started is notified if it succeeds and held if it fails |
| `ResyncTask.RequestsAreKept` | lexe-ln/src/sync.rs:43-96 | no request is forgotten: it waits, is held, or has been answered |
| `ResyncTask.FirstSyncReport` | lexe-ln/src/sync.rs:69-81 | the first-sync result is sent at most once and is the first sync's result |
| `ResyncTask.FirstSyncIsReported` | lexe-ln/src/sync.rs:69-81 | once a sync has completed the first result has been sent |
| `ResyncTask.StoppedIffShutdown` | lexe-ln/src/sync.rs:58-96 | the task stops exactly on shutdown, and does nothing after |
| `WeakRng.NextThenPrevious` | common/src/rng.rs:193-199 | the step can be undone |
| `WeakRng.PreviousThenNext` | common/src/rng.rs:193-199 | every state is the step of some state |
| `WeakRng.NextBijective` | common/src/rng.rs:193-199 | the step is a bijection on states |
| `WeakRng.Rng.NextU32` | common/src/rng.rs:193-199 | output and new state |
| `WeakRng.KnownOutputs` | common/src/rng.rs:169-199 | the first outputs and states of the default generator |
| `WeakRng.KnownSeeds` | common/src/rng.rs:224-237 | seeds are two little-endian words, and the all-zero one is the default |
| `WeakRng.SeedNotZero` | common/src/rng.rs:224-237 | no seed gives the all-zero state |
| `WeakRng.NeverZero` | common/src/rng.rs:193-199 | no run from a nonzero state reaches it |
| `WeakRng.SeededRunsNeverZero` | common/src/rng.rs:169-237 | no run from `new` or any seed reaches it |
| `Shuffle.FastMapInRange` | common/src/rng.rs:269-272 | the result is below `n`, and nothing is cut off |
| `Shuffle.FastMapOnto` | common/src/rng.rs:269-272 | every value below `n` is hit |
| `Shuffle.ShufflePermutes` | common/src/rng.rs:277-289 | every stream permutes the slice |
| `Shuffle.EveryPermutationReachable` | common/src/rng.rs:277-289 | every permutation comes from some stream |
| `Shuffle.ShuffleInPlace` | common/src/rng.rs:277-289 | the in-place loop is that permutation, with all swap indexes in range |
| `Shuffle.KnownShuffle` | common/src/rng.rs:277-289 | positions are filled from the last on, with draws in stream order |
| `SealedCodec.Serialize` | common/src/enclave.rs:604-616 | two parts, each with its little-endian length cut to 32 bits |
| `SealedCodec.KnownLayout` | common/src/enclave.rs:604-616 | little-endian lengths, key request first |
| `SealedCodec.RoundTripIff` | common/src/enclave.rs:604-652 | a blob round-trips exactly when both parts are shorter than 2^32 bytes |
| `SealedCodec.AcceptedIff` | common/src/enclave.rs:618-652 | accepted input re-serializes to itself, and exactly the layouts of short parts are accepted |
| `Hex.Encode` | common/src/hex.rs:30-34 | two lower-case digits per byte, high nibble first |
| `Hex.Base16Table` | common/src/hex.rs:196-203 | the base16 alphabet of section 8 of RFC 4648, upper case read like lower case |
| `Hex.EncodedAt` | common/src/hex.rs:151-158 | where each byte's high and low digit stand |
| `Hex.Decode` | common/src/hex.rs:37-41 | succeeds exactly on even-length hex strings |
| `Hex.DecodeToSliceInner` | common/src/hex.rs:178-193 | fills the buffer exactly when lengths fit and all characters are hex digits |
| `Hex.DecodeConst` | common/src/hex.rs:48-72 | succeeds exactly on `2 * N` hex digits |
| `Hex.DecodeEncode` | common/src/hex.rs:30-41 | decoding undoes encoding (section 8 of RFC 4648) |
| `Hex.EncodeDecode` | common/src/hex.rs:30-41 | encoding what was decoded gives the string in lower case |
| `Backoff.WaitIsExact` | common/src/backoff.rs:32-46 | saturation never shows: the wait is the exact exponential, cut at the maximum |
| `Backoff.WaitDoubles` | common/src/backoff.rs:32-46 | waits double until the maximum and never shrink |

## Left out

- Cryptography, HTTP, OAuth, TLS, JSON bytes: an encrypted file is an opaque
  value, decryption a partial function, a payment file holds a payment or garbage.
- Time, scheduling and fairness: timeouts are possible failures; only safety is
  claimed, apart from the termination of the new-payments loop.
- LDK, BDK and Esplora internals: their results are free choices.
- The loops of `MonitorDurability`, `LateDriveWrites`, `EventHandoff`,
  `GvfsConcurrency` and `ResyncTask` are step machines on values, so aliasing of shared handles and the
  order of polls inside one step are not captured.
- Cancellation of a VFS call between the remote call and the cache update: its
  consequence is `CreateKeepsExactIff` and `DeleteKeepsExactIff`.
- Note edits and other writes to the database between the batches of one sync.
- Nodes that run without a Google VFS.
- Peer messages, the network graph, the scorer and the timers of the background
  processor, and the on-chain receive notification of the BDK sync.
- Deserialization of each monitor after reconciliation.
- How the Drive root directory is searched for and created.
- `PaymentDatabase.DiskMatches` counts only canonical names, so a directory with
  a second name for one payment is outside the read-back claims.
- Directories and non-UTF-8 file names in the payments directory, which the code
  skips.
- Build metadata in version precedence, which no shipped version has.
- `decode_to_slice_ct` and the `FromHex` instances, which add only easy members.
- Signup, provisioning plumbing, UI, CLI, FFI.
- MonitorReconcile.UpsertToGdriveAndLexe: runs the Google attempts before the Lexe attempts, while the code joins both; `MonitorDurability` interleaves them freely.
- MonitorReconcile.CompareAndFix: the two listings are taken as given and nothing else writes during the comparison, as at boot.
