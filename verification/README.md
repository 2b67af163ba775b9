# A model of the Google Messages adapter

The adapter keeps one Google Messages session per account consistent with a daemon. It
talks to a relay (and through it to a phone), keeps session files on disk, and writes one
JSON line per event to the daemon. This project models the parts of it that decide whether
the daemon's picture is right, and proves what they keep.

What is outside the adapter is an oracle that may answer anything: the relay, the phone,
the disk's success or failure of each call, the clock, and the schedule of goroutines.
Code that runs in one piece is a method over the same state as the original, proved
against a function on values; code that races is a step system whose steps are one
lock-held section, one channel operation or one disk call, and its theorems range over all
runs: what no step breaks, what each part of the state is changed by and by nothing else,
what an operation has been through, and what it comes to when it is left alone. A `char` of a line or an account name, and a `Byte` of a file name,
is one byte.

| Module | Models |
|---|---|
| `Counter` | the 64-bit counters that skip zero |
| `Cursor` | history cursors, with the decimal printer and parser |
| `Chunks`, `Wire`, `Emission`, `LineExcess` | the greedy chunk loop, the JSON line and its length, what is emitted |
| `Reconciler`, `Interleaving` | the receiver of the contract, replaying what is emitted, one group after another or interleaved |
| `Participants`, `Threads`, `Paging`, `Pool`, `FullSync` | one sync, from the relay's pages to the daemon's thread list |
| `Lifecycle`, `SaveFence`, `FenceRuns`, `SessionInvariant` | login, restore, pairing, connect, save, logout and close, interleaved |
| `Causes`, `Histories`, `Undisturbed` | the same steps by the fields they change, by what an operation has been through, and as whole operations |
| `TwoSessions` | a forgotten session and its successor over one session file |
| `EventQueue`, `DirtySet`, `Repair`, `MessageCache`, `Recent` | the relay event queue, overflow repair and the bounded stores |
| `WriteAuth`, `AuthStore`, `Sweep`, `Accounts`, `Names` | session files under crashes, the staging sweep, names |
| `Commands`, `Hub` | the five commands that carry a request id, and their admission |
| `Collections`, `Wrappers` | shared facts and datatypes |

## Where the code and its documentation differ

The model follows the code.

- The trial size of a chunk leaves out the generation, the fetch id, the cursor and the
  flip of the full flag (adapter/sync.go:366-387). A line may therefore exceed the 48 KiB
  constant that a test expects it to keep (adapter/contract_test.go:210); it stays far
  below the daemon's 64 KiB. For threads the excess is at most 35 bytes. Three threads that
  the mapping produces exceed it by 16 bytes in the first generation a process mints, and
  by 35 in one of twenty digits (`LineExcess.ThreadLineBoundIsReached`).
- A full group "reconciles once" (adapter/contract.go:60-64). It leaves exactly the listed
  threads if and only if no stale open group of the same number still claims another known
  id (`Reconciler.ClosedGroupIsExact`). A sync cut short and a restarted adapter, or the
  account's next session, that mints the same generation leave such a claim, and the thread
  stays (`Reconciler.RestartKeepsCutShort`, `Reconciler.GoneThreadSurvives`). Within one
  session no claim is stale for 2^64-1 mints (`FullSync.NextMintIsNotOpen`).
- The same group rule with two groups open at once: window refreshes run outside the sync
  lock (adapter/session.go:322-331, adapter/sync.go:181-193), so that the chunks of two full
  windows of one conversation may alternate. The group that closes last ends complete if
  and only if each id it listed is in its closing chunk or was not pruned by a close in
  between (`Interleaving.LastCloseIsComplete`); one that is pruned is lost
  (`Interleaving.InterleavedWindowLosesX`).
- The closing event "carries" the cursor (adapter/sync.go:390-391), but an empty window's
  one event has none, whatever the relay said (adapter/sync.go:394-397,
  `Emission.PageCompletesOnce`).
- Restore neither bumps the lifecycle nor clears the connected flag
  (adapter/session.go:467-471), and every hello restores (main.go:211-213, 324-334). Over a
  connected session it leaves the flag up for a client that never connected, and only that
  does (`SessionInvariant.HonestExceptRestore`); it is reachable
  (`SessionInvariant.RestoredOverConnected`).
- "A stale sync must never recreate a session file logout deleted"
  (adapter/session.go:383-386). Two things bring the file back. A save already past its
  recheck writes it after the teardown (`FenceRuns.LoggedOutFileReappears`). And Logout
  bumps the lifecycle before it deletes and tears down (adapter/send.go:814-838), so that a
  sync or token refresh that starts in between carries the new stamp, passes the fence, and
  saves, any number of times; Logout then succeeds over a file that nothing stale wrote
  (`FenceRuns.SavesDuringLogout`). The file is absent after the teardown, and stays so until
  the next adoption, if and only if nothing wrote between deletion and teardown and no save
  is past its recheck at the teardown (`SaveFence.LogoutLeavesNoFileExactly`).
- A logout's session is forgotten and the account gets a new one with its own save mutex
  (main.go:132-154, 235-241), while workers that were dispatched with the old one keep it
  (main.go:196-206, 227). The old session can publish after the new one, so that the shared
  file goes back to it, if and only if at the hand-over one of its saves is past its recheck,
  it has an auth, one of its logins or restores is about to install one, or a login or
  restore dispatched to it has yet to begin (`TwoSessions.GoesBackExactly`,
  `TwoSessions.RevokedAuthReturns`).
- "The loss heals instead of lingering" (adapter/session.go:258-261). It can fail in two ways.
  A mark made after the running repair took the marks, whose request comes before that
  repair ends, is left until the next overflow; in a session at rest no other mark is
  (`Repair.QuietMarksExactly`, `Repair.MarkLeftBehind`). And a repair takes every mark
  before it fetches (adapter/session.go:322-331): a mark it took is refreshed if and only if
  there was a client, its fetch returned a page while that client was still the session's,
  and the lifecycle was the same and the session open at the end; otherwise the mark is
  gone and nothing repeats it (`Repair.RefreshedExactly`, `Repair.FailedFetchLosesMark`).
- Lifecycle stamps are compared for equality. A save of an ended lifecycle passes its
  recheck exactly when its auth is unchanged and its stamp is a whole number of cycles of
  2^64-1 bumps old (`SaveFence.LatePassExactly`, `FenceRuns.OldStampReturns`).
- A cursor minted from a message the cache holds no positive time for does not lead where
  the bare id leads (`Cursor.MintedAgreesWithBareId`), and a page cursor whose id holds a
  colon does not lead back to its message (`Cursor.PageCursorResumes`).
- sanitizeName's comment forbids dots (adapter/messages.go:229-231); the code refuses only
  the two names that consist of one and of two dots (`Names.DottedNameIsAccepted`).
- mapConversation's comment rejects direct threads with more than two members
  (adapter/map.go:74-76). The code rejects a record if and only if it has no id or no
  participant with a key, whatever their number (`Participants.AcceptedExactly`); three
  members of a direct thread come out as a group (`Participants.ThreeMembersMakeAGroup`).

## Model

| member | source | states |
|---|---|---|
| `Counter.AfterClosedForm` | adapter/session.go:364-372 | after n increments the counter is 0 for n = 0 and otherwise ((n-1) mod (2^64-1)) + 1 |
| `Counter.SameStamp` | adapter/session.go:364-372 | two stamps are equal iff they are the same increment or a positive one and one a whole number of cycles later |
| `Counter.YoungStamp` | adapter/session.go:364-372 | within less than one cycle, a stamp is current iff nothing was counted since |
| `Counter.NeverZero` | adapter/sync.go:339-351 | an incremented counter is never zero, so zero can mean ungrouped, and it fits in 64 bits |
| `Cursor.FormatIntParses` | adapter/sync.go:429-443 | every int64 prints to a numeral that parses back to it and holds no colon |
| `Cursor.ReprintExactlyWhenPlain` | adapter/sync.go:429-443 | of the numerals the parser accepts, exactly those without plus sign, leading zero and minus zero print back as themselves |
| `Cursor.RoundTrip` | adapter/sync.go:429-443 | a minted cursor parses to its own pair iff the id is non-empty and colon-free, and is rejected otherwise; never another pair |
| `Cursor.AcceptedCursors` | adapter/sync.go:429-439 | an accepted cursor has a non-empty colon-free id, and is one the adapter mints iff its numeral is plain |
| `Cursor.MintedAgreesWithBareId` | adapter/sync.go:462-479 | the minted cursor of an id and the bare id recover the same relay cursor iff the cached time is positive |
| `Cursor.PageCursorResumes` | adapter/sync.go:506-518 | a page's cursor, sent back, leads to the message it names, the relay's position or the oldest message shown, iff that id is non-empty and holds no colon, and then it is exactly the relay's position where there is one |
| `Cursor.PageCursorExactly` | adapter/sync.go:506-518 | a page has a cursor iff the relay gave one with an id or the page is as full as was asked for |
| `Cursor.ForeignExactly` | adapter/sync.go:462-479 | a cursor is an error iff it is neither a minted one nor an id the cache knows a time for |
| `Chunks.Cut` | adapter/sync.go:367-378 | the chunk loop computes the greedy split |
| `Chunks.GreedySplits` | adapter/sync.go:399-410 | the chunks concatenate to the input in order, and each is one item or fits the bound |
| `Chunks.GreedyStaysAhead` | adapter/sync.go:367-378 | holding only a suffix of what was held never needs more chunks, and saves at most one |
| `Chunks.GreedyIsOptimal` | adapter/sync.go:367-378 | for every size test that only tightens as items are added, no order-preserving split into such chunks has fewer |
| `Wire.JoinLength` | adapter/contract.go:108-130 | the length of a rendered list is the sum of its parts' and of one separator |
| `Wire.NumberLength` | adapter/contract.go:108-130 | an optional 64-bit number costs at most 24 bytes beyond the name of its key |
| `Wire.ThreadLineIsObject` | adapter/contract.go:108-114 | a thread line is the JSON object of its keys in alphabetical order, the generation only if it is not zero |
| `Wire.WindowLineIsObject` | adapter/contract.go:115-130 | the same for a message line, with cursor, fetch id and generation only where they say something |
| `Emission.Outbox.constructor` | adapter/session.go:161-174 | a new session has sent nothing and minted no generation |
| `Emission.Outbox.Fire` | adapter/session.go:414-419 | an event fired before the close is sent, one fired after it is not |
| `Emission.Outbox.NextGeneration` | adapter/sync.go:343-351 | the generation advances by one, over zero |
| `Emission.Outbox.EmitConversations` | adapter/sync.go:361-388 | what is fired for a thread list: greedy chunks, the last one full iff authoritative, a shared generation iff several and authoritative; a close lets through a prefix |
| `Emission.Outbox.EmitMessages` | adapter/sync.go:393-425 | what is fired for a window, with the cursor and the completion on the last chunk and a new generation minted iff full and several chunks |
| `Emission.ThreadTrialMonotone` | adapter/sync.go:370-374 | the thread size test only tightens as threads are added, for every rendering |
| `Emission.ThreadCutIsOptimal` | adapter/sync.go:361-388 | the thread list goes out in order, in the fewest chunks of one thread or of at most 48 KiB of trial line |
| `Emission.WindowCutIsOptimal` | adapter/sync.go:393-425 | the same for a message window |
| `Emission.PageCompletesOnce` | adapter/sync.go:393-425 | every line echoes the fetch id, exactly the last completes the page, by then all messages were sent in order; the cursor is on that line and no other, and on none if the window is empty; no earlier line is full |
| `Emission.ThreadLineLength` | adapter/contract.go:108-114 | to the byte, what the trial size of a thread line leaves out |
| `Emission.WindowLineLength` | adapter/contract.go:115-130 | to the byte, what the trial size of a message line leaves out |
| `Emission.ThreadLineBound` | adapter/sync.go:20-32 | every thread line with several threads is at most 48 KiB + 35 bytes |
| `Emission.WindowLineBound` | adapter/sync.go:20-32 | every message line with several messages is at most 48 KiB + 67 bytes plus its cursor, and under 64 KiB if the quoted cursor is at most 16000 bytes |
| `LineExcess.ThreadIsMapped` | adapter/map.go:77-160 | the threads of the witness are what the mapping makes of relay records |
| `LineExcess.FirstLineExcess` | adapter/sync.go:366-387 | in every generation their first line is over the 48 KiB by 15 bytes and the digits of the generation |
| `LineExcess.ThreadLineBoundIsReached` | adapter/sync.go:366-387 | the excess is 16 bytes in the first generation and 35 in the widest, so that the bound of 35 is tight |
| `Reconciler.MergesOverlay` | adapter/contract.go:60-64 | while a generation is open, any mix of its chunks and live merges lays the records over the prior state and loses no id |
| `Reconciler.CloseLeavesTheGroup` | adapter/contract.go:60-64 | the closing chunk, with live merges anywhere before it, leaves exactly what the generation listed |
| `Reconciler.OpenGroupOverlays` | adapter/sync.go:380-387 | any prefix of an unclosed group, and a whole unauthoritative one, overlays the prior state |
| `Reconciler.ClosedGroupReplaces` | adapter/sync.go:353-388 | a closed group of any number of chunks keeps what it listed and what a stale open group of its number claims |
| `Reconciler.ClosedGroupIsExact` | adapter/sync.go:353-388 | the daemon ends with exactly the listed records iff no such stale claim names another known id |
| `Reconciler.RestartKeepsCutShort` | adapter/sync.go:343-388 | after a cut-short group and a whole one of the same generation the daemon keeps the ids of both |
| `Reconciler.GoneThreadSurvives` | adapter/sync.go:343-388 | a stream after which a thread the full sync does not list is still known |
| `Reconciler.ThreadEventsAreGrouped` | adapter/sync.go:380-387 | the thread events are one group in the contract's sense |
| `Reconciler.WindowEventsAreGrouped` | adapter/sync.go:411-424 | the message events are one group in the contract's sense |
| `Reconciler.WindowMeaning` | adapter/sync.go:390-425 | a full window replaces the daemon's, a history page is laid over it, in any number of chunks |
| `Interleaving.KnownExactly` | adapter/contract.go:60-64 | after any stream of groups, interleaved or not, an id is known iff it was known or listed and no group closed without it since |
| `Interleaving.LastCloseIsComplete` | adapter/session.go:322-331 | the group that closes last ends with its own ids only, and with all of them iff each is in its closing chunk or survived every close in between |
| `Interleaving.UninterruptedIsComplete` | adapter/sync.go:393-425 | it is complete if no group closes between its first chunk and its own close |
| `Interleaving.InterleavedWindowLosesX` | adapter/sync.go:181-193 | a stream of two alternating windows after which an id that the last one listed is unknown |
| `Participants.FindSelfAddresses` | adapter/map.go:90-94 | the first pass collects the numbers of the entries marked as the user's |
| `Participants.KeepParticipants` | adapter/map.go:95-124 | the second pass computes the fold with both dedupe rules |
| `Participants.MapConversation` | adapter/map.go:77-160 | the whole mapping, with its three rejections and the promotion to group |
| `Participants.KeptDistinct` | adapter/map.go:95-124 | kept keys are non-empty and pairwise different, and at most one kept entry is the user |
| `Participants.KeptExactly` | adapter/map.go:95-124 | by positions: an entry is kept iff it has a key and no entry kept before it has that key or is, like it, the user; in the record's order |
| `Participants.EntryExactly` | adapter/map.go:46-106 | an entry's key, name and number; it is the user iff flagged, known, the relay's own name for the user, or sharing the number of a flagged entry |
| `Participants.NobodyLost` | adapter/map.go:95-124 | an entry with a key is kept, or its key is, or it is one of the user's and another of those is |
| `Participants.MoreSelvesNeverGrow` | adapter/map.go:77-134 | knowing more identities keeps a subset of the keys, never makes a direct thread a group, and does not change whether the thread is accepted |
| `Participants.AcceptedExactly` | adapter/map.go:77-128 | a record is accepted iff it has an id and some participant has a key, whatever the number of members; otherwise the error says which is missing |
| `Participants.ThreadExactly` | adapter/map.go:126-160 | an accepted record is a group iff flagged or more than two participants were kept, only a group has a title, and what every other field of thread and metadata is |
| `Participants.ThreeMembersMakeAGroup` | adapter/map.go:74-76 | a direct record with three members comes out as a group |
| `Participants.LearningIsStable` | adapter/sync.go:48-67 | mapping a record again after learning its self key gives the same conversation |
| `Participants.Identity.Map` | adapter/sync.go:48-67 | a mapping adds exactly the keys of its self participants to the identity set |
| `Participants.Identity.MapTwice` | adapter/sync.go:48-67 | twice in a row gives the same result and the identity set of once |
| `Threads.NewestFirstIsStable` | adapter/sync.go:242-245 | the order is descending by activity, a permutation, and within one timestamp as listed |
| `Threads.StableOrderIsUnique` | adapter/sync.go:242-245 | no other order has those properties |
| `Threads.OutcomeKeepsID` | adapter/sync.go:259-290 | a handled thread keeps its id when the phone answers with the thread it was asked for |
| `Threads.HandedOnExactly` | adapter/sync.go:259-290 | a thread is handed on iff the session stayed current and its row is acceptable, or lists nobody and the phone answers with an acceptable record; it is made of the row where the row will do |
| `Pool.NothingLostInThePool` | adapter/sync.go:246-302 | over every schedule each index is handled exactly once, every slot is its own index's outcome, ok results plus skipped equals the listing, and without a skip none is missing |
| `Pool.AtMostEightInHand` | adapter/sync.go:252-258 | at no moment are more than eight indices in hand, or one index in two workers' |
| `Pool.SomeSchedule` | adapter/sync.go:246-302 | whatever each handling meets, there is a schedule that handles every index |
| `Pool.EightAtOnce` | adapter/sync.go:252-258 | with enough to do all eight workers can be busy at once |
| `Paging.AppendPage` | adapter/sync.go:151-158 | a page is appended without empty and already seen ids |
| `Paging.FetchPage` | adapter/sync.go:130-150 | the answer is that of the last call; a page is asked twice iff it is the first, the first call failed and re-arming worked |
| `Paging.FreshIsDedupe` | adapter/sync.go:151-158 | what the loop keeps is, in order, exactly the items at the first position of each non-empty id, all ids different |
| `Paging.ListAll` | adapter/sync.go:123-168 | at most 11 calls; a success is the first-occurrence dedupe of pages that each continued the one before; capped iff ten pages all promised another; a failure means the session was retired before a page or the relay gave none |
| `Paging.ListInbox` | adapter/sync.go:123-168 | against a faithful relay the result is a prefix of the inbox, and all of it when not capped |
| `Paging.UncappedIsWhole` | adapter/sync.go:159-164 | pages of a faithful relay whose last promises no more are the whole inbox |
| `FullSync.CollectThreads` | adapter/sync.go:296-300 | the threads are the filled slots in sorted order |
| `FullSync.CollectUnreads` | adapter/sync.go:321-326 | the loop computes the flags of the filled slots |
| `FullSync.UnreadOfLast` | adapter/sync.go:321-326 | exactly the ids of handled threads have a flag, and it is that of the last one with the id |
| `FullSync.Publish` | adapter/sync.go:296-328 | a retired sync publishes nothing and mints no generation; any other is authoritative iff neither capped nor skipped |
| `FullSync.SyncMeaning` | adapter/sync.go:222-328 | a complete sync leaves the daemon with exactly its threads, an incomplete one lays them over what was there |
| `FullSync.CutShortLosesNothing` | adapter/sync.go:353-388 | a sync cut short by a close before its last line loses no thread and invents none |
| `FullSync.SyncKeepsMinted` | adapter/sync.go:343-351 | any part of a sync's lines keeps the generations a session sent among those it minted |
| `FullSync.NextMintIsNotOpen` | adapter/sync.go:343-351 | to a daemon without open groups when the session starts, the generation minted next is not open, whatever the session sent, for 2^64-1 mints |
| `FullSync.WorkersHandAllOn` | adapter/sync.go:246-300 | a schedule that skips nothing hands on every row's own outcome and unread flag, in the rows' order, and under the rows' ids if the phone answers with the threads it is asked for |
| `FullSync.SkipsNothingExactly` | adapter/sync.go:246-302 | a finished schedule skips nothing iff every row was usable while the session stayed current |
| `FullSync.InboxReachesDaemon` | adapter/sync.go:123-328 | from a faithful relay's inbox through paging, sorting, any schedule, any chunking and whatever the session sent before: the daemon ends with exactly the threads the workers made, and, if the phone answers in kind, with exactly the inbox's, each as its handling left it and with its row's unread flag |
| `Lifecycle.Session.BumpLifecycle` | adapter/session.go:364-372 | link from code to model: the whole state after a bump |
| `Lifecycle.Session.BuildClient` | adapter/session.go:223-235 | link from code to model: a new client that carries the new client generation |
| `Lifecycle.Session.LoginRebuild` | adapter/send.go:84-109 | link from code to model: login cancels pairing and reconnect, goes offline and installs a new auth and client |
| `Lifecycle.Session.RestoreSection` | adapter/session.go:467-471 | link from code to model: restore installs auth and client and keeps the connected flag |
| `Lifecycle.Session.FinishPairing` | adapter/send.go:152-169 | link from code to model: a stale completion changes nothing, a current one ends the pairing |
| `Lifecycle.Session.RunConnectLoop` | adapter/session.go:444-453 | link from code to model: a new reconnect loop replaces the one before |
| `Lifecycle.Session.RaiseConnected` | adapter/session.go:543-550 | link from code to model: the flag is raised iff lifecycle and client are the captured ones on an open session |
| `Lifecycle.Session.LoggedOutByRelay` | adapter/session.go:688-697 | link from code to model: a logout event of the current lifecycle takes the session offline, another does nothing |
| `Lifecycle.Session.Teardown` | adapter/send.go:846-857 | link from code to model: the whole state after a teardown, one bump included |
| `Lifecycle.Session.CloseSection` | adapter/send.go:865-880 | link from code to model: the whole state after the section of Close |
| `Causes.AuthAndClientExactly` | adapter/send.go:59-109 | auth and client change in exactly a login's rebuild, a restore and a logout's teardown, and to what |
| `Causes.BumpsExactly` | adapter/session.go:361-372 | the lifecycle is bumped by exactly the start of a login, a logout's two bumps and a close |
| `Causes.OnlineExactly` | adapter/session.go:517-550 | a session is online after a step iff a connect that owns its client just ended, or it was and the step is none of the four that take it offline, a current relay logout among them; the authenticated flag moves with it, and a restore sets it by what the stored auth holds |
| `Causes.PairingExactly` | adapter/send.go:118-169 | when a pairing begins and ends, and who sets and uses up its cancel function |
| `Causes.ReconnectExactly` | adapter/session.go:442-457 | a reconnect loop's context is replaced by the next loop and cleared by exactly a login and a close |
| `Causes.SaveMutexExactly` | adapter/session.go:389-411 | the save mutex is taken only when free, by a save, and released when that save gives up or has written |
| `Causes.FileCauses` | adapter/session.go:389-411 | the file changes in exactly the write of a save and the deletion of a logout |
| `Causes.StagesExactly` | adapter/send.go:59-184 | for every stage of every operation, exactly the ways into it: where the operation was, what it found and what it was answered |
| `Histories.RevokeDecides` | adapter/send.go:814-824 | in every run a logout goes on to delete iff it found no client or its revoke was confirmed; otherwise it is over; either way the revoke leaves session and file as they were |
| `Histories.RevokesWhatItFound` | adapter/send.go:804-816 | what a logout revokes is the client it found at its start, after it bumped the lifecycle |
| `Histories.NothingEndsUnrevoked` | adapter/send.go:799-845 | in every run a session that loses its auth, its client or its file loses it to a logout that revoked first |
| `Histories.OnlineWasDialled` | adapter/session.go:517-550 | in every run a session goes online only after a connect captured the client and lifecycle, had two good answers and owned the client after each |
| `Histories.SavedWasPaired` | adapter/send.go:59-184 | in every run a login saves only after its own start, two good answers of the relay and the phone's confirmation, for one client, auth, pairing and lifecycle that were still the session's |
| `Undisturbed.LoginAlone` | adapter/send.go:59-184 | from any state, a well answered login ends online with a new client and auth, saved twice in its own lifecycle, nothing of the pairing left |
| `Undisturbed.UnconfirmedLoginAlone` | adapter/send.go:152-176 | a login the phone does not confirm leaves the session offline and unpaired, and its file as it was |
| `Undisturbed.RestoreAlone` | adapter/session.go:459-482 | from any state with a file, a restore ends online in the lifecycle it found, with the file written anew |
| `Undisturbed.LogoutAlone` | adapter/send.go:804-857 | a logout with nothing to revoke, or a confirmed revoke, ends without client, auth and flags, two lifecycles later, and without file iff it had none or the deletion took effect |
| `Undisturbed.UnrevokedLogoutAlone` | adapter/send.go:819-823 | a logout whose revoke fails keeps client, auth, flags and file, in a new lifecycle |
| `Undisturbed.CloseAlone` | adapter/send.go:861-885 | a close keeps what the session is, in a new lifecycle, and stops its pairing and its reconnect loop |
| `Undisturbed.SecondAttemptAlone` | adapter/session.go:484-515 | a connect whose attempt fails tries again and ends online just the same |
| `SaveFence.OnlyAuthsPublished` | adapter/session.go:389-411 | in every reachable state of every run: no nil auth was published, at most one save holds the mutex, and the file on disk is one of those published or the one found at the start |
| `SaveFence.TheFence` | adapter/session.go:389-411 | in every run of at most 2^64-1 bumps no nil auth is published, published lifecycles never decrease, and after any bump at most one file of an older lifecycle is still published |
| `SaveFence.PublishesInOrderExactly` | adapter/session.go:389-411 | published lifecycles never decrease, and the next write continues them, throughout a run iff no save passed its recheck behind a newer publish |
| `SaveFence.BehindIsLate` | adapter/session.go:405-411 | only a save with a stamp of an ended lifecycle does so |
| `SaveFence.LatePassExactly` | adapter/session.go:405-411 | a save passes with such a stamp iff its auth is unchanged and its stamp is a positive whole number of counter cycles old |
| `SaveFence.StepSpendsPending` | adapter/session.go:389-411 | every step but a late pass keeps the number of writes of an ended lifecycle, made or past the recheck, from growing |
| `SaveFence.AtMostOneStaleWrite` | adapter/session.go:389-411 | after any bump, over every interleaving, at most one file of an older lifecycle is still published, and one more per late pass |
| `SaveFence.AtMostOneWriteAfterTeardown` | adapter/send.go:804-857 | in every run, after a teardown and before a login or restore installs an auth, nothing is published but the write past its recheck, if there is one |
| `SaveFence.TornDownPublishesExactly` | adapter/send.go:804-857 | a torn-down session still publishes before the next adoption iff a write is past its recheck |
| `SaveFence.LoggedOutFileExactly` | adapter/send.go:804-857 | it can still have a file by then iff it has one already or a write is past its recheck |
| `SaveFence.FileExactly` | adapter/send.go:826-838 | over any steps there is a file iff there was one and no deletion since, or some save wrote and no deletion came after |
| `SaveFence.LogoutLeavesNoFileExactly` | adapter/send.go:804-857 | a logout leaves the session without a file until the next adoption iff nothing wrote between its deletion and its teardown and no write is past its recheck |
| `SaveFence.RecheckPassesExactly` | adapter/session.go:405-411 | a save writes iff the auth is the captured one and its stamp is the current bump or a whole number of cycles old |
| `FenceRuns.LoggedOutFileReappears` | adapter/send.go:804-857 | a run in which a completed logout is followed by one stale write, so that the bound of one is tight |
| `FenceRuns.SavesDuringLogout` | adapter/send.go:814-838 | a run in which two saves of the logout's own lifecycle, started after its deletion, leave a file under the torn-down session |
| `FenceRuns.OldStampReturns` | adapter/session.go:389-411 | a run, one counter cycle long, that publishes an older lifecycle after a newer one |
| `SessionInvariant.SoundInEveryRun` | adapter/session.go:223-235 | at every release of the lock in every run: a client iff an auth, connected only with a client, and that client carries the current generation |
| `SessionInvariant.OnlyTheOwnerConnects` | adapter/session.go:517-550 | in every run the flag goes up only in a connect whose client and lifecycle are still the session's, on an open session |
| `SessionInvariant.HonestExceptRestore` | adapter/session.go:459-475 | the flag keeps speaking of the present client in every step but a restore over a connected session, and fails in that one |
| `SessionInvariant.HonestRun` | adapter/session.go:459-475 | the flag speaks of the present client throughout a run iff the run never restores over a connected session |
| `SessionInvariant.RestoredOverConnected` | adapter/session.go:459-475 | a run that ends connected with a client that never connected |
| `TwoSessions.GoesBackExactly` | main.go:132-154 | some continuation of a hand-over publishes the older session after the newer one iff at the hand-over a save of the older is past its recheck, it has an auth, a login or restore of it is about to install one, or one dispatched to it has yet to begin |
| `TwoSessions.LifecyclesNeverDecrease` | main.go:132-154 | if none of these holds, the lifecycles of the shared file never decrease, barring saves of the successor that pass behind a newer publish |
| `TwoSessions.RevokedAuthReturns` | main.go:235-241 | a run in which a successful logout's auth replaces the file its successor published |
| `EventQueue.InvInEveryRun` | adapter/session.go:236-267 | in every run the queue is what is left of the pushes in order, and every dispatch has a current stamp |
| `EventQueue.QueueKeepsItsPromises` | adapter/session.go:594-611 | at most 256 events queued; the dispatched ones are a first-in first-out subsequence of the pushed; each is dispatched in the lifecycle it was stamped in, or a whole number of counter cycles later |
| `EventQueue.OnlyCurrentClientsPush` | adapter/session.go:236-246 | in every run each event pushed was handed over by the client whose generation was current at that call, with the stamp of that moment |
| `EventQueue.CallIsTakenExactly` | adapter/session.go:236-246 | a call of a handler is taken iff its client is the current one, and changes nothing otherwise |
| `EventQueue.HandlerFate` | adapter/session.go:245-256 | every event the current client hands over is pushed when its handler ends, unless the queue was full at two selects, the last one included |
| `EventQueue.HandlerNeverWaits` | adapter/session.go:245-256 | a handler ends after at most three selects, the first if there is room |
| `EventQueue.DispatchedExactly` | adapter/session.go:594-611 | in every run an event is dispatched iff the consumer took it and found its stamp current |
| `EventQueue.LeavesExactly` | adapter/session.go:245-256 | events leave the queue from the front, one at a time, to the consumer or dropped by a handler that found it full |
| `MessageCache.Cache.CachedTS` | adapter/sync.go:617-626 | a time other than zero is that of the latest message remembered under the id, and an id in the window is found |
| `MessageCache.Cache.Remember` | adapter/sync.go:628-646 | every window keeps agreeing with the log, the insertions of the message's window are the old ones and this one if it is new, and beyond 1024 windows one goes whole, with its insertions, whichever |
| `MessageCache.Cache.Trim` | adapter/sync.go:641-643 | dropping from the front keeps the last 200 |
| `MessageCache.Cache.Sweep` | adapter/sync.go:654-661 | however many windows there are, exactly the excess over 1024 goes, with its insertions, and everything else is unchanged |
| `MessageCache.WindowAgrees` | adapter/sync.go:628-646 | a window's ids stay unique and the last 200 insertions, and each entry the latest of its id |
| `MessageCache.RememberAgrees` | adapter/sync.go:628-646 | one message keeps every window's agreement with the log |
| `Recent.LastAppend` | adapter/sync.go:640-643 | trimming after every append keeps the same elements as trimming the whole log |
| `Recent.StaysUntilPushedOut` | adapter/session.go:301-306 | an element is kept until n later ones came, and gone after them |
| `DirtySet.Dirty.Mark` | adapter/session.go:292-307 | a known id changes nothing; a new one goes last and pushes out the oldest of 64; set and order stay the same ids |
| `DirtySet.Dirty.Take` | adapter/session.go:310-320 | a take returns each mark once and leaves none |
| `DirtySet.MarkSurvivesExactly` | adapter/session.go:292-320 | an id not marked again is among those a take returns iff fewer than 64 others were inserted since |
| `Repair.QuietMarksExactly` | adapter/session.go:253-283 | in every run, once handlers and repair are done, a mark is left iff a handler that marked after the last take was turned away by the repair of that take |
| `Repair.OneCatchUp` | adapter/session.go:272-283 | at no moment do two repairs run, and the flag is up while one does |
| `Repair.CatchUpEnds` | adapter/session.go:274-283 | a repair takes the marks in its first step, every further step brings it nearer its end, and its last one clears the flag |
| `Repair.HandlerEnds` | adapter/session.go:262-283 | a handler's mark is set, and its request starts a repair iff none runs |
| `Repair.TakenAreAsked` | adapter/session.go:310-331 | in an open session whose repairs are done every mark ever taken was asked for, once per take and in order |
| `Repair.RefreshedExactly` | adapter/sync.go:447-519 | in every run a refresh sends its window iff there was a client, its fetch returned a page while that client was the session's, and lifecycle and openness held to the end |
| `Repair.MarkLeftBehind` | adapter/session.go:253-283 | a run that comes to rest with a mark left |
| `Repair.FailedFetchLosesMark` | adapter/sync.go:481-490 | a run that comes to rest with a mark taken, not refreshed and not left, after one failed fetch |
| `WriteAuth.NeverPartial` | adapter/store.go:97-134 | a crash at any point of any set of concurrent writes, deletes and sweeps leaves a session file absent or with all the bytes of one write to that account |
| `WriteAuth.ReadersSeeFinishedFiles` | adapter/store.go:137-153 | without a crash a reader sees no less |
| `WriteAuth.ReturnedIsDurable` | adapter/store.go:126-134 | once a call returned nil a crash exposes its file or a later state, and exactly its bytes if there is none |
| `WriteAuth.InvInEveryRun` | adapter/store.go:97-134 | what every disk call keeps: session entries only ever point at synced, complete files, and each call owns its temp file |
| `WriteAuth.StepGrows` | adapter/store.go:97-174 | no disk call changes a synced file, forgets an entry's state or takes durability back |
| `WriteAuth.OnlyRenameAndDelete` | adapter/store.go:130-165 | an account's entry changes in exactly a rename to it and a deletion of it, and to what |
| `WriteAuth.TempNamesExactly` | adapter/store.go:105-132 | a temp name appears with its creation and goes with its rename, its deferred removal or a sweep, and in no other step |
| `WriteAuth.FilesExactly` | adapter/store.go:112-123 | a file's bytes come from its own call's write, all or, if it fails, any, and are durable from its sync on |
| `WriteAuth.DeletionHolds` | adapter/store.go:156-165 | in every run, from a deletion to the next rename to the account there is no file |
| `WriteAuth.DeletionIsDurable` | adapter/store.go:156-174 | once a directory sync followed, a crash exposes none either |
| `AuthStore.Store.CreateTemp` | adapter/store.go:105-111 | the call is the model's step |
| `AuthStore.Store.Write` | adapter/store.go:112-115 | the call is the model's step, a failed write leaving any bytes |
| `AuthStore.Store.Sync` | adapter/store.go:120-123 | the call is the model's step, after which the bytes are durable |
| `AuthStore.Store.Rename` | adapter/store.go:130-132 | the call is the model's step, which fails when the temp file is gone |
| `AuthStore.Store.SyncDir` | adapter/store.go:167-174 | of every entry only the current state can survive a crash |
| `AuthStore.Store.WriteAuth` | adapter/store.go:97-134 | the code, early returns and deferred removal included, makes exactly the steps of one undisturbed call of the model |
| `AuthStore.Store.DeleteAuth` | adapter/store.go:156-165 | the steps of a deletion, and when it returns nil; then there is no file and a crash exposes none; no other entry changes state, and none at all if the file could not be removed |
| `AuthStore.WriteAuthOutcome` | adapter/store.go:97-134 | nil iff all eight disk calls succeed, and then a crash exposes its bytes; the session entry changes iff the first seven do, no other account's ever; the temp file is gone |
| `Sweep.RemoveExpired` | adapter/store.go:238-254 | the first loop removes exactly the expired regular files that can be removed, and totals the live ones |
| `Sweep.Enforce` | adapter/store.go:255-264 | the second loop removes the oldest live files above the cap, and whichever removals fail its running total is the bytes that survive |
| `Sweep.RemoveDebris` | adapter/store.go:270-283 | the third loop removes exactly the old regular session temp files that can be removed |
| `Sweep.SweepStaged` | adapter/store.go:222-286 | both directories and the count after the sweep, whichever listing fails |
| `Sweep.EvictsShortestPrefix` | adapter/store.go:255-264 | with successful removals exactly the shortest oldest-first prefix goes that brings the rest under the cap |
| `Sweep.EvictsOnlyAboveCap` | adapter/store.go:255-264 | with failing removals every removal still happened above the cap, and ending above it means every survivor failed to go |
| `Sweep.SurvivingBytes` | adapter/store.go:255-264 | whichever removals fail, the surviving bytes are the total without the bytes removed |
| `Sweep.OnlyRegularFilesGo` | adapter/store.go:239-246 | an entry that is not a regular file is never removed |
| `Sweep.SurvivorsFitTheCap` | adapter/store.go:255-264 | the live files that survive are the newest, at most the cap, and with the last removed one they were above it |
| `Sweep.NothingExpiredSurvives` | adapter/store.go:247-251 | an expired regular file is gone iff its removal could succeed |
| `Sweep.StagedExactly` | adapter/store.go:238-264 | entry by entry: what is not a regular file stays, an old one goes if it can be removed, a younger one iff the cap loop evicted it |
| `Sweep.LiveExactly` | adapter/store.go:239-253 | the files the cap loop may evict are the regular ones modified since the cutoff |
| `Sweep.DebrisExactly` | adapter/store.go:265-283 | of the store directory exactly the old regular files with a session temp name go, if they can be removed |
| `Names.CheckControls` | adapter/messages.go:241-245 | the rune loop finds a control character iff some byte is one |
| `Names.SanitizeName` | adapter/messages.go:232-260 | the method computes the specification for every input |
| `Names.LastSizeIsLastRune` | adapter/messages.go:249 | on a string that ends with a whole rune the backward decoder finds that rune |
| `Names.LastSizeExactly` | adapter/messages.go:249 | on any bytes the backward decoder finds a rune of several bytes iff the string ends with one, and else one byte |
| `Names.EncodedIsWellFormed` | adapter/messages.go:246-255 | the well-formed sequences of the model are those of RFC 3629: every code point has one and comes back from it |
| `Names.WellFormedIsEncoded` | adapter/messages.go:246-255 | and each is the encoding of a code point |
| `Names.SpaceExactly` | adapter/messages.go:237 | what is trimmed are the encodings of Unicode's white space |
| `Names.TrimmedExactly` | adapter/messages.go:233-237 | the rules are applied to the part after the last slash or backslash without the white space around it, and to all of the rest |
| `Names.RefusedExactly` | adapter/messages.go:238-259 | a name is refused iff nothing, one dot, two dots or a control character is left |
| `Names.CutLength` | adapter/messages.go:248-255 | the cut is a prefix within 255 bytes, and at least 252 if anything was cut |
| `Names.CutIsLongest` | adapter/messages.go:246-255 | of valid UTF-8 (section 4 of RFC 3629) the cut is valid and the longest whole-rune prefix that fits |
| `Names.AcceptedName` | adapter/messages.go:229-260 | everything an accepted name promises: no slash, backslash or control character, not a dot or two, 1 to 255 bytes, the trimmed basename itself unless that is longer, and for valid input valid and longest |
| `Names.DottedNameIsAccepted` | adapter/messages.go:229-260 | a name with a dot inside is accepted unchanged |
| `Accounts.ValidAccount` | main.go:336-350 | the command gate accepts exactly the names the store accepts: 1 to 128 bytes without separator, dot or control character |
| `Accounts.NamedExactly` | adapter/store.go:67-73 | the store names a file for exactly those |
| `Accounts.ListingFindsTheAccount` | adapter/store.go:177-190 | listing undoes naming for accepted accounts, and never lists a temp file |
| `Accounts.TempExactly` | adapter/store.go:265-270 | a session temp name is anything between the two ends of the store's pattern |
| `Commands.SendToRelay` | adapter/send.go:345-365 | at most four calls, exactly those that are due, and their outcome |
| `Commands.OutcomeExactly` | adapter/send.go:345-365 | a send is delivered iff some call made was accepted, open iff some call made met a silent phone, and refused otherwise |
| `Commands.Session.SweepPending` | adapter/session.go:142-149 | exactly the entries older than ten minutes go |
| `Commands.SweptExactly` | adapter/session.go:142-149 | an entry survives a sweep iff it is at most ten minutes old |
| `Commands.Session.Relay` | adapter/send.go:301-326 | result, acceptance and failure in that order, and the correlation entry kept unless the relay refused |
| `Commands.Session.DoSendText` | adapter/send.go:262-327 | link from code to model: the attempts of the command |
| `Commands.Session.DoSendMedia` | adapter/send.go:368-437 | link from code to model: the attempts of the command |
| `Commands.Session.DoReact` | adapter/send.go:538-586 | link from code to model: the attempts of the command |
| `Commands.Session.DoDelete` | adapter/send.go:718-733 | link from code to model: the attempts of the command |
| `Commands.Session.DoOpen` | adapter/send.go:738-797 | link from code to model: the attempts of the command |
| `Commands.EveryCommandAnswersOnce` | adapter/send.go:262-797 | whatever a command meets, it attempts exactly one result, for its own request, and a transport failure only after the acceptance of the same transaction |
| `Commands.FailsExactly` | adapter/send.go:262-797 | a command that lacks something it needs makes one attempt, which names the first thing it lacks in the order they are looked at |
| `Commands.SucceedsExactly` | adapter/send.go:262-797 | one that lacks nothing succeeds, a send reporting the acceptance and, iff the relay refused it, the transport failure |
| `Commands.TransportFailureExactly` | adapter/send.go:301-365 | the daemon hears of a transport failure iff the command was good and no call made was accepted or met a silent phone |
| `Hub.InvInEveryRun` | main.go:180-206 | in every run of the hub each ticket's attempts made and left are its script |
| `Hub.DueAnswersOnce` | main.go:208-316 | what a ticket is to attempt holds one result, busy and unreadable file included, or nothing when it is dropped |
| `Hub.OneAnswerPerRequest` | main.go:180-316 | in every run at most sixteen workers are active, and a dispatched command has attempted at most one result, and exactly one when its worker is done |
| `Hub.AnsweredExactly` | main.go:180-316 | in every run a command is run iff it is acceptable and fewer than sixteen slots are taken at its arrival, and attempts exactly its script, one busy result, one unreadable-file result or nothing, by which it is |
| `Hub.OneAnswerExactly` | main.go:251-316 | in every run an acceptable command, and a media command in any case, has attempted exactly one result for its request once no worker holds it, and any other nothing |
| `Hub.SlotsExactly` | main.go:173-206 | a slot is taken by exactly the commands that are run and freed only by a worker that is done |

## Left out

- Relay calls, pairing cryptography, media transfer and protobuf decoding: library code, oracles here.
- The status table, text and log sanitizing, the rendering of a record beyond its length, path containment and the cookie converter: finite or stateless, and easy.
- Time: timers, contexts and back-off are choices of the run; a cancelled context is a flag.
- Lifecycle, EventQueue, Pool and Hub are step systems on values; aliasing of the original's objects is captured only where it compares addresses (clients, auth records, pairings, contexts).
- The hub's session map beyond one hand-over: TwoSessions covers a forgotten session and one successor, with the commands that still hold the forgotten one.
- What a repair sends: in Repair its full sync is a step without an effect of its own and a window is sent in one step; FullSync, Emission and Interleaving cover what is sent.
- What a relay call carries, such as whether a reaction is to be added, removed or switched: Commands covers what the daemon is told.
- Which tokens a save writes: two saves of one lifecycle may publish in either order, because they are marshalled before the save mutex.
- finishPairing's last step, and the mark of a dropped event's own thread: the code fences neither, and nothing is claimed of them.
- Schedule independence of mapped participants: the identity set grows while the workers map, so that a thread is claimed to be as its own handling left it, not as another schedule would.
- Message mapping (mapMessage) and the rest of emitWindow: windows enter as lists of messages.
- Two emissions that interleave on one session: Emission covers a close between any two fires, Reconciler and Interleaving cover what a receiver makes of them.
- The other fields and arrays of relay records, and the clock behind SweepPending, enter as parameters.
- FullSync.InboxReachesDaemon: the daemon has no open group when the session starts, and the session has minted fewer than 2^64-1 generations; that the ids are the inbox's is claimed of a phone that answers a fallback request with the thread it was asked for. What a mapping yields depends on the identities it met, which are part of the schedule.
- Emission.WindowLineBound: the cursor's length is a parameter, because the relay chooses message ids.
- Sweep.Enforce: the running total does not wrap at 2^63 bytes; a directory lists a name once.
- Sweep.SweepStaged: the order that sort returns is a parameter, constrained to be a permutation by age, because ties fall either way; removal of a directory entry is by name.
- AuthStore.Store.WriteAuth: one call with nothing in between; interleavings with other calls are what WriteAuth quantifies over.
- Names.AcceptedName: invalid UTF-8 is covered except for validity and longest prefix; the name is not claimed to survive a second pass, since a cut may leave a trailing space.
