# Verified model of a personal data server

This project models the parts of an AT Protocol personal data server whose correctness depends
on order and interleaving, and proves what they promise over every run:

- **The embedded firehose.** A subscriber joins a bounded broadcast channel, pages through the
  durable log, cuts over to live events with dedup by seq, and recovers once from lag, while
  writers commit and publish. `FirehoseLog` holds the specification (the deliverable rows of a
  seq interval, in order), `EmbeddedFirehose` the loops of the stream handler,
  `FirehoseMachine` the interleaving of writers, channel and subscriber. `FirehoseOrder` proves
  that completeness is exactly publishing in seq order. `FirehoseEndToEnd` lets the writers of one
  repo feed the subscriber, and proves that it is served completely exactly when every commit
  comes from a job that publishes. `FirehoseProgress` proves that nothing but a second lag or a
  cursor beyond the head keeps a subscriber from its rows.
- **The PDS-wide sequencer.** `SequencerObject` is the Durable Object with its counter, log and
  sockets; it meets the same specification, which `FirehoseAgreement` draws together.
- **The repo commit engine.** `RepoEngine` is one commit, single or batch, against a store
  updated in place. `RepoHistory` says what a log and a commit chain must tell each other,
  `RepoWriters` interleaves writers of many repos at every await, `WriterProgress` proves that a
  writer whose lock is free gets its write made, `RepoBatch` compares a batch with its operations
  one by one.
- **The registration saga.** `Registry` is the claims and invites object; `RegistrationSaga`
  interleaves `createAccount` runs, their account objects and the identity ledger, with requests
  and answers that may be delayed or lost. `IdentityGuard` says exactly when a label can come
  free while an identity for it is on the ledger, and `SagaProgress` what a signup comes to when
  nobody else moves: a bound account, or nothing at all.
- **OAuth state and DPoP.** `OAuthStore` has the single-use records, expiry and purge; `OAuthRedeem`
  what is redeemed of what was stored, over whole runs;
  `PurgeSchedule` says for whole histories when purges can be told from the answers; `Dpop` the
  proof window, the replay cache and the nonces.
- **Small algorithms.** `Lex`, `Pagination`, `Collections`, `Tid`, `WebSocketFrames` and
  `QueryString`.

`Wrappers` and `RepoData` hold shared datatypes. A content identifier is modelled by the block it
addresses, so the hash is injective by construction. The Merkle search tree is one block holding
the finite map from key to record, and when the tree library refuses an operation is a parameter
(`Accepts`) over which every statement is quantified. Time, randomness, signatures and revision
labels are parameters. A state machine's runs are sequences of steps, each enabled in the state
before it.

Four places where the code and its own comments differ; the model follows the code:

- The design note above `create_account` (rust-worker/src/lib.rs:865-881) promises that a label is
  never released while an identity for it exists on the ledger. The code releases whenever it does
  not hear a success from provisioning, and a provision reports failure when the ledger accepted
  but its answer was lost, or when hashing, the insert or the key storage fails afterwards. Both
  kinds of run are exhibited (`LostAnswerHappens`, `LostLedgerAnswerHappens`). `GuardBreaksIff` and
  `RunGuardedIff` give the exact condition, step by step and for whole runs;
  `HeardAnswersKeepGuard` says which answers must be heard for the promise to hold.
- The sequencer's comment calls its order gap-free (rust-worker/src/sequencer.rs:161-165). The
  counter moves before the CIDs are parsed, so a rejected enqueue leaves a gap; `Ledger` accounts
  for every one.
- The store's contract calls the purge of expired OAuth rows not correctness-critical
  (rust-core/src/oauth/store.rs:183-187). It is observable: through `revoke_refresh_token` on an expired token
  (`PurgeBeforeRevokeIff`, `PurgesInvisibleIff`), and through the replay cache for a proof whose `iat` is not in the past
  and whose nonce, where one is required, was the current one (`ReplayExactlyWhenNotPast`).
- `tid_from_micros` speaks of a 63-bit value, but the shift keeps 64 bits and drops those above;
  decoding is exact precisely below 2^54 microseconds (`TidDecodesIff`).

## Model

| member | source | states |
|---|---|---|
| `FirehoseLog.DeliverableMembers` | rust-core/src/storage/traits.rs:85-97 | the specification holds a frame exactly when some decodable, not invalidated row of the interval carries it |
| `FirehoseLog.DeliverableAscends` | rust-core/src/storage/traits.rs:72-97 | the frames due ascend strictly and stay within the interval and the log |
| `FirehoseLog.VisibleHead` | rust-worker/src/store.rs:298-312 | the first row of a backfill read is the first visible row past the cursor, and the rest is the read from that row on |
| `FirehoseLog.BackfillPage` | rust-core/src/storage/traits.rs:85-97 | a page is the front of the visible rows after the cursor, never over the limit, and short only when there is no more |
| `EmbeddedFirehose.SendPage` | rust-core/src/server/firehose_ws.rs:286-305 | writing a page extends the sent frames to exactly the interval up to its last row, corrupt rows only moving the cursor |
| `EmbeddedFirehose.RunBackfill` | rust-core/src/server/firehose_ws.rs:273-308 | terminates on any finite log with any mix of corrupt and invalidated rows, sends exactly the deliverable rows after the cursor, and leaves no visible row ahead of it |
| `EmbeddedFirehose.Serve` | rust-core/src/server/firehose_ws.rs:217-268 | the select loop ends exactly at the first close or disconnect, or at the first lag that follows another with no frame sent in between, or with the script |
| `EmbeddedFirehose.PlaySends` | rust-core/src/server/firehose_ws.rs:185-268 | a session with a cursor, fed by a growing log and its events in seq order, lags included, has been sent exactly the deliverable rows of the full log up to its last seq, and is past everything it was offered |
| `EmbeddedFirehose.PlayRelays` | rust-core/src/server/firehose_ws.rs:217-231 | for any events, a session without lags has sent its backfill and then exactly the events that exceed all before, in order |
| `EmbeddedFirehose.RecoveredIff` | rust-core/src/server/firehose_ws.rs:232-256 | the lag flag is up exactly when nothing was sent since the recovery from the last lag |
| `EmbeddedFirehose.HandleFirehose` | rust-core/src/server/firehose_ws.rs:185-268 | FutureCursor exactly beyond the head and then nothing sent; otherwise, for every full log that the reads and events come from, exactly its deliverable rows after the cursor up to the last seq, which is past every event handled and every row read; without lags exactly the backfill and the events that exceed all before; the outcome says which input ended it |
| `EmbeddedFirehose.RelayLosesNothingIffOrdered` | rust-core/src/server/firehose_ws.rs:221-231 | dedup by seq relays every event if and only if the events ascend from the last seq sent |
| `FirehoseMachine.OneLockPublishesInOrder` | rust-core/src/repo/writer.rs:154-170 | commits that wait for the previous send make every publish take the oldest pending event |
| `FirehoseMachine.EveryRunIsOrderly` | rust-core/src/server/firehose_ws.rs:209-308 | with any publish order, in every interleaving, frames ascend strictly above the cursor and ConsumerTooSlow only follows a recovery with no live frame since |
| `FirehoseMachine.EmbeddedStreamComplete` | rust-core/src/server/firehose_ws.rs:185-308 | in every interleaving with publishes in seq order, lag recovery included, a subscriber with cursor c was sent exactly the deliverable rows with c < seq <= last, once each, in order |
| `FirehoseMachine.DrainedStreamIsSuffix` | rust-core/src/server/firehose_ws.rs:217-268 | once the channel is drained, the frames sent are the whole ordered suffix of the log |
| `FirehoseMachine.BaseMoves` | rust-core/src/server/firehose_ws.rs:208-242 | what a stream without a cursor owes starts after the newest published event, and only a lag before its first live frame moves that point, to 0 |
| `FirehoseProgress.EveryStreamCatchesUp` | rust-core/src/server/firehose_ws.rs:185-308 | after any run in seq order, a subscriber in service that has not lagged twice in a row can be brought level by reads alone, and has then been sent the whole ordered suffix once nothing is pending |
| `FirehoseProgress.NewcomerIsServedIff` | rust-core/src/server/firehose_ws.rs:191-215 | a new subscriber with a cursor comes level without meeting a lag, sent exactly the deliverable rows after the cursor, if and only if the cursor is not beyond the head; otherwise it is turned away with nothing sent |
| `FirehoseProgress.SecondLagStops` | rust-core/src/server/firehose_ws.rs:243-252 | a second lag with no live frame in between stops the subscriber at once and sends it nothing more |
| `FirehoseProgress.FetchTakesAPage` | rust-core/src/server/firehose_ws.rs:279-285 | a page fetched holds 500 rows, or all that are left, and a subscriber goes live exactly when none is left |
| `FirehoseOrder.OvertakingSkips` | rust-core/src/server/firehose_ws.rs:221-231 | publishing any event but the oldest pending one to a subscriber that is up to date leaves it with a deliverable row missing below its last seq |
| `FirehoseOrder.CompleteIffInOrder` | rust-core/src/server/firehose_ws.rs:185-308 | for every history of commits and publishes, every subscriber in every interleaving with any prefix of it is served completely if and only if each publish takes the oldest pending event |
| `FirehoseOrder.UnorderedPublishLosesRow` | rust-core/src/server/firehose_ws.rs:221-231 | a run in which two writers publish against seq order and a caught-up subscriber never gets the earlier row |
| `FirehoseEndToEnd.RunRefines` | rust-core/src/repo/writer.rs:154-170 | every interleaving of the writers of one repo, whose commits publish, with a subscriber that reads their log and channel is a run of the firehose machine whose commits wait for the previous send |
| `FirehoseEndToEnd.WritersFeedSubscriber` | rust-core/src/repo/writer.rs:358-373 | so, over any earlier log, undecodable rows included, the subscriber has been sent exactly the deliverable rows of the writers' log up to its last seq, and the whole suffix once drained, with no assumption about publish order |
| `FirehoseEndToEnd.ServedIffAllPublish` | rust-core/src/repo/writer.rs:124-149 | over any earlier log and any run of the writers of one repo, every subscriber in every interleaving with any prefix of it is served completely if and only if every commit comes from a job that publishes |
| `SequencerObject.Sequencer.Enqueue` | rust-worker/src/sequencer.rs:166-255 | the counter moves by one; a parsed event is logged under the old counter and sent to every live socket, an unparsed one becomes a gap; the invariant over ledger and sockets is kept |
| `SequencerObject.Sequencer.Subscribe` | rust-worker/src/sequencer.rs:291-315 | the new socket is sent exactly the logged frames after its cursor, or nothing without one, and all else is unchanged |
| `SequencerObject.Sequencer.Drop` | rust-worker/src/sequencer.rs:233-235 | a dead socket stops counting as live and nothing else changes |
| `SequencerObject.FanOut` | rust-worker/src/sequencer.rs:233-235 | every live socket gets the frame at the end, a dead one is left as it was |
| `SequencerObject.Replay` | rust-worker/src/sequencer.rs:301-312 | the replayed frames are the specification's suffix after the cursor |
| `SequencerObject.LedgerGap` | rust-worker/src/sequencer.rs:169-184 | an enqueue that fails after allocation adds exactly its seq to the gaps, which with the logged seqs still partition the numbers below the counter |
| `SequencerObject.LedgerRow` | rust-worker/src/sequencer.rs:169-221 | a logged enqueue keeps seqs increasing and below the counter, and adds no gap |
| `SequencerObject.RowKeepsSocket` | rust-worker/src/sequencer.rs:233-235 | one logged row sent to a live socket keeps it at replayed backlog plus every later row |
| `SequencerObject.SocketSendsSuffixIff` | rust-worker/src/sequencer.rs:288-315 | a live socket has been sent the ordered suffix after its cursor if and only if no row logged since it joined has a seq within the cursor |
| `SequencerObject.LiveSocketSendsSuffix` | rust-worker/src/sequencer.rs:288-315 | with a cursor not beyond the head, a live socket has at every later time been sent the same specified suffix as the embedded server |
| `FirehoseAgreement.ServersAgree` | rust-worker/src/sequencer.rs:166-315 | over one log and from one cursor, a drained embedded subscriber and a live sequencer socket have been sent the same frames |
| `RepoEngine.AnnouncedMeansApplied` | rust-core/src/repo/writer.rs:588-596 | replaying the announced entries has the effect of the operations on the map |
| `RepoEngine.MutateTree` | rust-core/src/repo/writer.rs:488-500 | applies the operations in order to one tree and stops at the first refusal |
| `RepoEngine.RepoStore.PutBlock` | rust-worker/src/store.rs:277-283 | stores a block under the CID of its own contents, keeping what is there |
| `RepoEngine.RepoStore.CommitAll` | rust-worker/src/store.rs:347-388 | blocks, the counter, one log row under its new value and the root move together |
| `RepoEngine.RepoStore.PrepareRecords` | rust-core/src/repo/writer.rs:452-486 | stores exactly the record blocks of the batch |
| `RepoEngine.RepoStore.OpenBase` | rust-core/src/repo/writer.rs:425-450 | gives the stored root, or writes the empty tree and an initial commit |
| `RepoEngine.RepoStore.ApplyMany` | rust-core/src/repo/writer.rs:409-631 | succeeds exactly when the batch is not empty and its operations can be made one after another, each accepted on the map it meets; then one commit, carrying the labels drawn and its predecessor, whose event has one entry per operation in order with its key, kind and record, and whose map holds under every key what the last operation on it left; otherwise root, log and counter are unchanged and blocks only grew |
| `RepoEngine.RepoStore.CommitOp` | rust-core/src/repo/writer.rs:161-385 | the same for a single operation |
| `RepoEngine.WriteLands` | rust-core/src/repo/writer.rs:161-385 | what any write is, single or batch, without saying how it is made: when it succeeds, its event, its commit and its map |
| `RepoHistory.CommitKeepsStore` | rust-core/src/repo/writer.rs:316-373 | a commit chained to the stored root keeps, for every repo, the row-by-row agreement of log and chain and the closure of storage |
| `RepoHistory.LinkedReplays` | rust-core/src/repo/writer.rs:328-356 | a log that agrees with its chain replays to the map at the root |
| `RepoHistory.LinkedIsLinear` | rust-core/src/repo/writer.rs:205-209 | such a chain is the announced commits, newest first, then the initial commit |
| `RepoHistory.MapStaysClosed` | rust-core/src/repo/writer.rs:452-500 | accepted operations leave only entries whose blocks are stored |
| `RepoWriters.DidLocks.Get` | rust-core/src/server/repo.rs:83-102 | every writer of a repo gets the same lock, and no lock is shared by two repos or replaced |
| `RepoWriters.OneInside` | rust-core/src/repo/writer.rs:166-170 | at most one writer of a repo is past the lock |
| `RepoWriters.LogReplayRebuildsRepo` | rust-core/src/repo/writer.rs:161-385 | after any interleaving of single and batch writes, replaying a repo's log rows over the empty map gives the record map at its stored root |
| `RepoWriters.HistoryIsLinear` | rust-core/src/repo/writer.rs:176-209 | after any interleaving, following prev from the root meets the commits of the repo's n rows newest to oldest and, after n steps, the empty initial commit |
| `RepoWriters.SinceFollowsHistory` | rust-core/src/repo/writer.rs:316-326 | since is the previous row's rev and absent on the first row only |
| `RepoWriters.StorageIsClosed` | rust-core/src/storage/adapter.rs:28-33 | every block reachable from a stored root is stored, each under the CID of its own contents |
| `RepoWriters.LockedWritersPublishInOrder` | rust-core/src/repo/writer.rs:124-170 | after any interleaving of writers of many repos, publishing or not, the events published for a repo are the rows its publishing jobs committed, in seq order, short of at most the one its lock holder is about to send; they are all its rows if and only if all its commits came from publishing jobs |
| `WriterProgress.WaiterIsServed` | rust-core/src/repo/writer.rs:161-385 | a waiting writer whose lock is free can run to exactly the write the commit engine makes in one call, publish it if it should, and leave every lock and writer else as it was; or to nothing at all when an operation is refused |
| `WriterProgress.NewcomerIsServed` | rust-core/src/server/repo.rs:83-102 | any job may come in, and its write is made as soon as its repo's lock is free |
| `WriterProgress.LockComesFree` | rust-core/src/repo/writer.rs:166-170 | a taken lock is always held by a writer that can let go of it |
| `RepoBatch.BatchEqualsFold` | rust-core/src/repo/writer.rs:387-408 | a batch succeeds exactly when its operations would one by one, ends in the same map, and has one commit and one row carrying all entries in order |
| `RepoBatch.UnlockedWritersFork` | rust-core/src/repo/writer.rs:122-126 | without a shared lock two writers that load the same root lose a record that the log announces |
| `Registry.RegistryObject.IsTaken` | rust-worker/src/registry.rs:238-246 | taken exactly when every claim of the label, with any code and in either mode, would be refused as unavailable; if not, an open claim would be granted |
| `Registry.RegistryObject.ClaimLabel` | rust-worker/src/registry.rs:268-345 | the verdict and the new tables: a grant inserts a reserved row and, unless open, takes one use of a valid code |
| `Registry.RegistryObject.Release` | rust-worker/src/registry.rs:356-390 | removes a reserved row and returns its use; no effect on an absent or active one |
| `Registry.RegistryObject.Bind` | rust-worker/src/registry.rs:392-405 | an existing row becomes active with the DID |
| `Registry.RegistryObject.ForceRelease` | rust-worker/src/registry.rs:206-216 | removes the row in any state and refunds nothing |
| `Registry.RegistryObject.SeedInvite` | rust-worker/src/registry.rs:407-420 | the code has the given uses and is enabled |
| `Registry.RegistryObject.ResolveDid` | rust-worker/src/registry.rs:224-236 | finds an active row bound to the DID exactly when there is one |
| `Registry.OpConservesInvites` | rust-worker/src/registry.rs:268-420 | one operation moves uses plus paid rows of a code only by seeding it or force-releasing a row of it |
| `Registry.RunConservesInvites` | rust-worker/src/registry.rs:268-420 | the same over any run, and uses never fall below zero |
| `Registry.SeededCodeAdmitsIff` | rust-worker/src/registry.rs:268-345 | a code seeded with n uses admits a gated claim of a free label exactly while fewer than n of the rows it admitted since stand unreleased, force-released ones counting as spent; otherwise the claim is refused as an invalid code and nothing changes |
| `Registry.ReleaseMakesRoom` | rust-worker/src/registry.rs:347-390 | releasing a reserved row of a code makes room for one more, force-releasing it makes none |
| `RegistrationSaga.SagaOwnership` | rust-worker/src/lib.rs:882-998 | in every interleaving with delayed and lost messages, at most one run holds a label, and every release or bind in flight will act on the reserved row its own run inserted |
| `RegistrationSaga.ActiveIsForever` | rust-worker/src/registry.rs:347-405 | an active row is never removed or rebound and every later claim of its label is refused |
| `RegistrationSaga.InsertKeepsSole` | rust-worker/src/store.rs:597-651 | an insert under the object's own handle succeeds only into an empty table |
| `RegistrationSaga.OneAccountPerObject` | rust-worker/src/handlers.rs:189-273 | an account object never holds two accounts even when provision calls overlap, and an active row names exactly the account its object holds |
| `RegistrationSaga.ClosingActsOnOwnRow` | rust-worker/src/lib.rs:946-982 | a release or bind in flight finds its own run's reserved row |
| `RegistrationSaga.StepKeepsInvites` | rust-worker/src/registry.rs:268-405 | no step of the saga other than seeding changes a code's total |
| `RegistrationSaga.StepKeepsLedger` | rust-worker/src/handlers.rs:228-252 | an accepted identity stays on the ledger, and every account's identity is on it |
| `SagaProgress.HeardSuccessBinds` | rust-worker/src/lib.rs:970-982 | from every reachable state, a success that is heard sends a bind, and its delivery leaves the label active with the run's identity and its code kept |
| `SagaProgress.HeardFailureRefunds` | rust-worker/src/lib.rs:944-968 | a failure that is heard gives back the label and the use of the code that paid for it |
| `SagaProgress.SignupSucceeds` | rust-worker/src/lib.rs:882-998 | from every reachable state, a signup of a free label with an empty object, open or with a usable code, can run to an active row, an account and an identity on the ledger, for one use of the code |
| `SagaProgress.RefusedSignupIsFree` | rust-worker/src/lib.rs:875-876 | a signup the ledger refuses leaves registry, ledger and objects as they were |
| `SagaProgress.OccupiedSignupIsFree` | rust-worker/src/handlers.rs:210-223 | so does one whose object already has an account, and no second identity is ever posted for it |
| `SagaProgress.ClaimIsRefused` | rust-worker/src/lib.rs:914-930 | a claim of a taken label, or without a usable code in gated mode, ends the run and changes nothing |
| `SagaProgress.StoreSucceedsIff` | rust-worker/src/handlers.rs:244-262 | after an acceptance the provision succeeds exactly when the password was hashed, the object was empty and the keys were stored |
| `SagaProgress.FirstSignups` | rust-worker/src/lib.rs:882-998 | any label and identity can be signed up first of all, openly or with a seeded code |
| `IdentityGuard.GuardBreaksIff` | rust-worker/src/lib.rs:865-968 | from any state of a run in which no label is free while the ledger has an identity for it, a step breaks that if and only if it is a release delivered while the ledger has one, or an acceptance whose label is free |
| `IdentityGuard.RunGuardedIff` | rust-worker/src/lib.rs:865-968 | a whole run keeps the promise if and only if none of its steps is such a release or acceptance |
| `IdentityGuard.HeardAnswersKeepGuard` | rust-worker/src/lib.rs:865-881 | if every provision and ledger answer is heard and no provision fails after an acceptance, no label is ever free while the ledger has an identity for it, and none gets two |
| `IdentityGuard.GuardedIsHoused` | rust-worker/src/handlers.rs:228-252 | where no label is free while the ledger has an identity for it, none is free while an account stands behind it: accounts are the weaker promise |
| `IdentityGuard.HousingBreaksIff` | rust-worker/src/handlers.rs:244-257 | the same step by step for account rows: a release once the object holds an account, or an insert once the label is free |
| `IdentityGuard.LostAnswerFreesLabelIff` | rust-worker/src/lib.rs:944-968 | giving up on a provision and releasing frees a label with an identity behind it if and only if the ledger already has one |
| `IdentityGuard.LostAnswerHappens` | rust-worker/src/lib.rs:944-968 | a run of one signup that ends with an account and its identity behind a free label |
| `IdentityGuard.LostLedgerAnswerHappens` | rust-worker/src/handlers.rs:228-252 | runs in which the caller hears every answer and the label still comes free with an identity on the ledger: the ledger's answer was lost, or what follows failed |
| `OAuthStore.OAuthTables.GetPushedRequest` | rust-worker/src/store.rs:1016-1041 | the row if it has not expired |
| `OAuthStore.OAuthTables.ConsumeAuthCode` | rust-worker/src/store.rs:1069-1101 | the row if it has not expired; it is gone either way |
| `OAuthStore.OAuthTables.ConsumeRefreshToken` | rust-worker/src/store.rs:1123-1162 | NotFound, Reused or Consumed, and only the last marks the token |
| `OAuthStore.OAuthTables.RevokeRefreshToken` | rust-worker/src/store.rs:1187-1207 | removes the whole chain of a known token, expired or not |
| `OAuthStore.OAuthTables.RecordDpopJti` | rust-worker/src/store.rs:1242-1254 | true exactly for an unseen jti, which is then remembered |
| `OAuthStore.OAuthTables.PurgeExpired` | rust-worker/src/store.rs:1256-1283 | removes and counts exactly the expired rows of four tables |
| `OAuthStore.PurgeRemovesExpired` | rust-worker/src/store.rs:1256-1283 | exactly the rows whose expiry is not after the clock go, and the others stay as they were |
| `OAuthStore.PurgeCounts` | rust-worker/src/store.rs:1256-1283 | the count answered is the number of rows removed |
| `OAuthStore.RevokeCounts` | rust-worker/src/store.rs:1164-1182 | so is that of ending a session |
| `OAuthRedeem.CodeRedeems` | rust-worker/src/store.rs:1050-1101 | in any run, purges included, a stored code answers its first redemption with exactly what was stored until it expires, and with nothing from then on |
| `OAuthRedeem.PushedReads` | rust-worker/src/store.rs:997-1041 | a pushed request is read back as stored, as often as asked, until it expires |
| `OAuthRedeem.DeletedReadsNothing` | rust-worker/src/store.rs:1043-1048 | a deleted request is not read again |
| `OAuthRedeem.TokenRedeems` | rust-worker/src/store.rs:1103-1162 | a stored token whose session was not ended answers its first redemption with the whole token until it expires |
| `OAuthRedeem.ReuseIsFoundOut` | rust-worker/src/store.rs:1120-1162 | a spent token presented again while it lives is answered Reused with its own session, unless the session was ended |
| `OAuthRedeem.EndedRedeemsNothing` | rust-worker/src/store.rs:1164-1207 | ending a session, by name or by a token in it, ends every token in it |
| `OAuthRedeem.ListsRedeemable` | rust-worker/src/store.rs:1209-1240 | the session list of an account is exactly its tokens that a redemption would consume |
| `OAuthStore.TokenSingleUse` | rust-worker/src/store.rs:1123-1162 | in any run, a consumed token later answers only Reused with its own session or NotFound |
| `OAuthStore.CodeSingleUse` | rust-worker/src/store.rs:1069-1101 | in any run, a code is redeemed at most once |
| `OAuthStore.PurgeIsInvisible` | rust-worker/src/store.rs:1016-1283 | runs that differ only in their purges give the same answers to reads and redemptions, if no expired token is presented for revocation |
| `OAuthStore.PurgeBeforeRevokeIff` | rust-worker/src/store.rs:1187-1283 | purging first changes what a revocation leaves alive if and only if the token had expired and a sibling had not |
| `PurgeSchedule.PurgesInvisibleIff` | rust-worker/src/store.rs:1016-1283 | for every store and history: all schedules of purges give the same answers, to the history and to anything read or redeemed after any prefix of it, if and only if under no schedule a revocation names an expired token with a live sibling |
| `PurgeSchedule.UnpurgedGuardIsNotEnough` | rust-worker/src/store.rs:1187-1283 | a history in which no revocation is of that kind as long as nothing is purged, and a schedule of purges under which one is |
| `Dpop.Verify` | rust-core/src/oauth/dpop.rs:163-208 | accepts exactly a bound, fresh proof with a valid nonce where required, the hash of the token presented, and an unseen jti; asks for a nonce exactly when a bound, fresh proof lacks a valid one; only a proof that passes all of these takes a cache slot |
| `Dpop.AcceptedIsBoundToToken` | rust-core/src/oauth/dpop.rs:178-200 | a proof accepted with an access token passes with no other token, and without one whatever hash it carries |
| `Dpop.Remembered` | rust-worker/src/store.rs:1242-1283 | an accepted jti stays cached until a purge at or after its window's end |
| `Dpop.NoReplayWithoutPurge` | rust-core/src/oauth/dpop.rs:163-208 | without a purge between, a jti is accepted once |
| `Dpop.NoReplayOfPastProof` | rust-core/src/oauth/dpop.rs:163-208 | a proof accepted with iat strictly before the clock is never accepted again under any purge schedule |
| `Dpop.ReplayExactlyWhenNotPast` | rust-core/src/oauth/dpop.rs:163-208 | some purge schedule lets an accepted proof through twice at its endpoint if and only if its iat is not before the first acceptance and, where a nonce is required, it carries the nonce current then |
| `Dpop.LateNonceWasCurrent` | rust-core/src/oauth/dpop.rs:88-107 | a nonce valid both at a time and a full proof lifetime later was the current one at the first |
| `Dpop.NonceLifetime` | rust-core/src/oauth/dpop.rs:88-107 | a nonce is valid through one window after issue, never from two windows on, and exactly until the end of the window after its own |
| `Pagination.ListRecords` | rust-core/src/repo/read.rs:79-141 | one page of the entries after the cursor with a cursor on a full page, or failure exactly when a record of the page does not decode |
| `Pagination.ListBlobs` | rust-worker/src/handlers.rs:1226-1250 | one page with the default and clamped limit |
| `Pagination.AfterCursor` | rust-worker/src/store.rs:927-952 | in key order, the cursor left after n entries admits exactly the entries from n on |
| `Pagination.FollowRecords` | rust-core/src/repo/read.rs:79-141 | for any limit, following cursors stops, and yields all entries in order with no loss or repeat, or failure exactly when some record does not decode; every page but the last has the size asked for, held to 1 to 100 |
| `Pagination.FollowBlobs` | rust-worker/src/handlers.rs:1226-1250 | for any limit, following cursors yields all blobs in order with no loss or repeat, in pages of the size asked for, 500 if none, held to 1 to 1000 |
| `Collections.CollectionContiguous` | rust-core/src/repo/read.rs:162-174 | between two keys of a collection lie only keys of that collection |
| `Collections.ListCollections` | rust-core/src/repo/read.rs:147-176 | comparing with the last name pushed gives each collection exactly once, and all of them |
| `Collections.DescribeCollections` | rust-core/src/server/repo.rs:621-642 | the set version gives the same names |
| `Collections.OrdersDiffer` | rust-core/src/server/repo.rs:621-642 | two keys on which the two listings disagree about order |
| `Tid.TidFromMicros` | rust-core/src/repo/util.rs:82-94 | the backwards loop yields the 13 base-32 digits of the shifted 64-bit word |
| `Tid.TidPreservesOrder` | rust-core/src/repo/util.rs:82-94 | below 2^54, earlier timestamps give lexicographically earlier keys |
| `Tid.TidDecodesIff` | rust-core/src/repo/util.rs:82-94 | decoding returns the timestamp times 1024 if and only if it is below 2^54 |
| `Tid.TidIsValidRkey` | rust-core/src/repo/util.rs:16-28 | every generated key passes the record key check |
| `Tid.TidEndsInZeros` | rust-core/src/repo/util.rs:82-94 | the ten shifted-in bits are the two last digits |
| `Tid.ValidateRkey` | rust-core/src/repo/util.rs:16-28 | the three checks in order accept exactly the valid record keys and name the first that fails |
| `Tid.RkeyKeepsKeysApart` | rust-core/src/repo/util.rs:10-24 | valid record keys under collections without a slash give different repo keys |
| `WebSocketFrames.WriteFrame` | rust-core/src/server/firehose_ws.rs:116-138 | the bytes written are the frame's encoding |
| `WebSocketFrames.Unmask` | rust-core/src/server/firehose_ws.rs:176-180 | the buffer is masked in place, byte by byte |
| `WebSocketFrames.ReadFrame` | rust-core/src/server/firehose_ws.rs:152-182 | the frame at the front of the bytes and what follows it, or a short or too large one |
| `WebSocketFrames.RoundTrip` | rust-core/src/server/firehose_ws.rs:116-182 | reading an unmasked frame returns opcode and payload and leaves exactly the rest; over the cap it is refused |
| `WebSocketFrames.RoundTripMasked` | rust-core/src/server/firehose_ws.rs:152-182 | the same for a frame masked with any key |
| `WebSocketFrames.CapIsInclusive` | rust-core/src/server/firehose_ws.rs:146-170 | a frame is read exactly up to 65536 bytes of payload and refused as too large beyond |
| `WebSocketFrames.StreamRoundTrip` | rust-core/src/server/firehose_ws.rs:116-182 | any concatenation of frames, masked or not, reads back as the same opcodes and payloads in order |
| `WebSocketFrames.ShortestLength` | rust-core/src/server/firehose_ws.rs:123-134 | no shorter length field reads back as the same length |
| `WebSocketFrames.WireLayout` | rust-core/src/server/firehose_ws.rs:116-138 | a written frame has FIN and the opcode in its first byte, no mask bit, the length in the shortest big-endian field, and the payload as it is |
| `WebSocketFrames.MaskedLayout` | rust-core/src/server/firehose_ws.rs:152-182 | a masked frame differs by the mask bit, the key and the masked payload |
| `WebSocketFrames.MaskFlipsBits` | rust-core/src/server/firehose_ws.rs:176-180 | masking flips exactly the bits that the repeated key has set |
| `WebSocketFrames.AnyLengthField` | rust-core/src/server/firehose_ws.rs:157-166 | a length may come in either wide field that can hold it |
| `WebSocketFrames.CutIsShort` | rust-core/src/server/firehose_ws.rs:152-182 | a frame cut anywhere before its end is short |
| `QueryString.PercentDecode` | rust-worker/src/lib.rs:528-549 | the index loop computes the recursive decoding |
| `QueryString.FormPercentDecode` | rust-core/src/server/mod.rs:172-203 | the one-pass loop computes its recursive decoding |
| `QueryString.DecodersAgree` | rust-worker/src/lib.rs:507-549 | replace-then-decode and one-pass decoding agree on every value |
| `QueryString.ReplacementMatters` | rust-worker/src/lib.rs:511-512 | without the replacement they differ, since the radix parser takes a sign |
| `QueryString.ParamsAgree` | rust-core/src/server/mod.rs:163-203 | both servers return the same value for every query and key |
| `QueryString.DecodeInvertsEscape` | rust-worker/src/lib.rs:518-549 | both decoders invert a percent-encoder that escapes every byte but the unreserved ones |
| `QueryString.HexValueIff` | rust-core/src/server/mod.rs:184-186 | exactly the sixteen digits in either case have a value |
| `QueryString.DecodeReadsAnyWriting` | rust-worker/src/lib.rs:518-549 | both decoders read back any legal writing of a value, byte by byte as itself, as a plus for a space, or as an escape in either case |
| `QueryString.StrayPercentStays` | rust-worker/src/lib.rs:524-527 | text without a valid escape is left as written, stray percent signs included, except that a plus is a space |
| `QueryString.BarePieceIsSkipped` | rust-core/src/server/mod.rs:165-170 | a piece without an equals sign is passed over |
| `QueryString.BuiltQueryRoundTrip` | rust-core/src/server/mod.rs:163-170 | in a query built from pairs, both servers find the first value stored under a name |

## Left out

- Merkle search tree, DAG-CBOR, CAR encoding and the diff block store: library code outside the repository; a finite map, injective identifiers and the set of blocks written stand for them.
- Signatures, SHA-256, Argon2 and AES-GCM: abstract.
- Dpop.Verify: the type, key, signature, method and URI checks that come before the freshness check are one boolean, since they would add single-branch facts.
- SQL failures part-way through a Durable Object step: every statement is taken to succeed.
- Several subscribers: they do not affect each other, so the machine has one.
- Completeness of the stream with several DIDs publishing concurrently: no lock orders their publishes, so it holds for exactly the histories that `CompleteIffInOrder` names; `LockedWritersPublishInOrder` gives order per DID and `EveryRunIsOrderly` needs no order.
- A write error on a subscriber's socket: the machine's `Stop` step, which may come at any time.
- Cancellation of a partly read client frame inside the select loop: framing is proved on an uninterrupted byte stream.
- Delivery from an account object to the sequencer: failures are only logged there, so there is no end-to-end claim.
- A writer cancelled between its commit and its send: the embedded server's writers always reach the send in the model.
- `rev` as a clock value: it is an opaque label, and nothing is claimed about the order of revs.
- The account deletion saga and the erasure of an account's rows: force-release is modelled in the registry only, the saga runs have none, and log rows are never deleted, though seqs come from a counter that would survive it.
- `OAuthStore.PurgeIsInvisible`: session lists are compared as sets of rows, since their order is a function of the rows.
- The OAuth put methods, session revocation and the session list: present as functions of the store and in every run, not as class methods.
- Turning decoded bytes into a string with replacement characters: the same last step in both query decoders.
- Record selection by collection prefix: pagination is stated over the entries the tree yields for the prefix.
- The validation pass of `applyWrites`, HTTP routing, CORS, HTML, proxies, DNS, TLS, key storage, CLI and configuration: I/O, or facts read off one branch at a time.
