# Verified model of the JMAP-to-Telegram bot

The bot watches JMAP mail accounts and announces new mail in Telegram chats, whose
buttons act back on the mailboxes. This project models the parts that hold its
state and proves what they keep:

- **The encrypted store** (`StoreModel`, `StoreLaws`, `Picking`, `Store`, `Disk`,
  `StoreMachine`, `StoreErasure`, `StoreGaps`, `StoreSlotless`).
  `StoreModel` says how each operation changes the data and `StoreLaws` what it means,
  field by field, each determining the other; `Store` is the object that edits its map in place and rewrites its files step by step, and `StoreMachine`
  interleaves any number of calls at every lock and every file-system call, with
  process kills and power losses at any point. `StoreErasure` says exactly when a
  restart can find a chat that memory has lost, or a chat without any account.
- **The sync cursor** (`SyncCursor`, `SyncLaws`, `SyncCrash`, `SyncStore`). The server is an
  append-only change log (RFC 8620 section 5.2), the cursor a position in it. `SyncCrash`
  is the protocol over abstract cursor versions; `SyncStore` runs it over `StoreMachine`
  and refines the one to the other.
- **Targets and the life of watchers** (`Targets`, `Lifecycle`, `LifecycleFacts`,
  `LifecycleGaps`, `AppState`, `Resume`). Adopters, teardowns, boot resumes, client
  lookups and the watchers themselves interleave over the shared maps, the two write
  locks and the health registry.
- **Text** (`TextLaws`, `Greedy`, `Chunking`, `ChunkingFacts`, `Markdown`,
  `Notification`, `NotificationFields`, `NotificationUnits`). The UTF-16 chunker and the
  MarkdownV2 printer, the latter against a reader of the format, the mail's own fields
  and Telegram's length limit.
- **Buttons and undo** (`Callback`, `CallbackLaws`, `Undo`). Callback data printed and parsed back, the
  keyboard that taps drive, and the timed one-slot undo over the server's mailbox sets.
- **Reconnecting and metrics** (`Reconnect`, `Health`).

Rust `i64` chat ids are `int` here, `String` and `&str` are `seq<char>` of Unicode
scalar values; lengths in UTF-16 units and UTF-8 bytes are computed from them. A
`BTreeMap` of slots is a `map` with an explicit key order (`StoreModel.LeastKey`).
Network, file-system and Telegram outcomes are parameters or nondeterministic steps.

## Where the code does less than it says

Each of these is a theorem below: a concrete input or run, and where possible the
exact condition.

- `remove` is documented to leave nothing on disk once it returns (src/store.rs:697-698).
  After Ok(true) that is so through every process crash (`StoreMachine.RemovalIsFinal`).
  A power loss can bring the chat back exactly while some directory entry older than the
  removal still holds it: never once the directory fsync of the removal, whose failure
  `persist` tolerates, or of any later call went through (`StoreErasure.RemovalIsFinalIff`,
  `StoreGaps.UnsyncedRemovalCanComeBack`). After Ok(false) the chat is gone for good
  exactly when neither a directory entry nor a snapshot being written holds it, which
  fails after a removal that did not persist (`StoreErasure.OkFalseIsFinalIff`,
  `StoreGaps.OkFalsePromisesNothing`).
- `remove_account` drops the data lock between removing the last slot and dropping the
  chat; the persist of any call for another chat can write the slotless chat in between
  (`StoreSlotless.GapCanReachTheDisk`). At every moment a later restart can find the chat
  without account exactly when memory, a directory entry or a snapshot in progress holds
  it so (`StoreErasure.RestartCanFindIff`); in runs in which no snapshot is taken while
  such a drop is pending, no restart does (`StoreSlotless.SlotlessRestartIff`). In
  runs without a crash in which no other call of the chat mutates, a slot of the chat in
  memory survives exactly when no such drop is pending
  (`StoreSlotless.AddedSlotIsSafeIff`).
- A unified record with a share without parent and no slot "default" is read into data
  whose share has no parent slot, and boot drops that share
  (`StoreModel.MigrationIsGoodIff`, `Targets.MigratedShareResumesIff`).
- A share without parent belongs to "default" for `is_child_of` but connects with the
  first slot for `resolve_parent_slot` (`StoreModel.UnparentedReadingsAgreeIff`).
- An adoption is refused when a handle is in the map, whether or not anything still
  runs behind it: a boot resume that a toggle-off overtakes leaves a target that is in
  the store, is not watched, and refuses the next adoption
  (`LifecycleFacts.AdoptRefusedIff`, `LifecycleGaps.StaleHandleBlocksAdoption`).
- A boot resume that gives up can deregister the entry of a watcher adopted after it
  read the store, although its comments call the registry exact
  (`LifecycleFacts.EntryLostIff`, `LifecycleGaps.LateGiveUpHidesAWatcher`).
- Clearing a lost topic does not stop a share from using it when shares use their
  parent's topic (`Targets.ClearingStopsTheTopicIff`), and it comes too late for the rest
  of the sync that found it lost, although the comment on it speaks of all subsequent
  notifications (`SyncCursor.LostTopicCostsTheSync`).
- Search results of the slot "default" carry no account and a tap without account
  reaches the slot of the least key (`Callback.DefaultIsReachedIff`).
- An undo is matched by the button's account name and the message's id only, and goes
  to whatever account that name stands for by then. It restores the triaged message
  exactly when its client is of the same server and user as the triage's
  (`Undo.RestoredIsTriagedIff`, `Undo.UndoRestoresIff`). Whenever store calls and
  teardowns in between change that, the mailboxes of the triaged mail are written onto the
  mail of the same id in the other account, and the triaged one stays moved
  (`Undo.OtherLoginIsHit`): after a slot of lesser key was added, for a button without
  account (`Undo.UndoCanHitAnotherMail`); after the named slot was removed and its id, such
  as "default", given to another mailbox (`Undo.ReboundSlotIsHit`); after a share was opted
  in again under another parent (`Undo.ReparentedShareIsHit`). A button with a name goes
  the same way as long as the client that its first tap left cached is not dropped or
  replaced (`Undo.TapsGoTheSameWay`).
- The keyboard that an undo puts back always says "unread"
  (`Callback.UndoKeyboardIsTrueIff`, `Callback.UndoForgetsTheReadState`), and a mark-read
  whose edit of the message fails leaves the "mark as read" button on a read mail
  (`Callback.TapKeepsFaithful`, `Callback.KeyboardIsTrueIff`).
- "Recovered" is announced when the stream that opened has dropped again, not when it
  opened (`Reconnect.NoticeIff`).
- `chunk_text` keeps to its limit, and makes no empty chunk, exactly when each single
  character of the lines is within the limit: always from 2 on, at 1 exactly without
  characters outside the basic plane (`ChunkingFacts.ChunksFitIff`,
  `ChunkingFacts.LimitOneCanFail`). Where that is so, joining the chunks gives the lines
  back exactly when every line fits and each blank line meets an open chunk shorter than
  the limit, and for a text that is one blank line (`ChunkingFacts.JoiningRestoresIff`).
- The field limits are there to keep a notification within Telegram's 4096 units
  (src/format.rs:11-18), but they count characters. A notification fits exactly when
  the characters outside the basic plane in the truncated fields and the template are no
  more than the room its length leaves; up to 464 of them always do
  (`NotificationUnits.UnitsFitIff`, `NotificationUnits.ShippedBasicMailFits`), and long
  names and addresses made of them do not (`NotificationUnits.WideMailDoesNotFit`).

## Model

| member | source | states |
|---|---|---|
| StoreMachine.StepKeeps | src/store.rs:389-470 | every step of any thread, kill or power loss keeps the invariant; durable versions never go back, visible ones only at a power loss, memory history only grows |
| StoreMachine.RunsKeep | src/store.rs:710-755 | over whole runs of any number of interleaved calls and crashes the invariant holds, durable versions never go back, nor visible ones without a power loss |
| StoreMachine.DiskIsACompleteSnapshot | src/store.rs:710-755 | at every moment, whatever is or may come back as `state.enc` is one complete snapshot of a memory state that occurred, and a restart opens it |
| StoreMachine.OkMeansOnDisk | src/store.rs:710-755 | a call that wrote and returned Ok is contained in the file a reader sees, and in stable storage once its directory fsync went through |
| StoreMachine.PersistIsExclusive | src/store.rs:316-334 | two calls are never inside `persist` together |
| StoreMachine.ErasedStep | src/store.rs:697-708 | once the removal is in the visible file, no step of any other call and no crash brings the chat back |
| StoreMachine.AbsentRun | src/store.rs:697-708 | between the removal in memory and its return, no call but `add_account` and `set` brings the chat back into memory |
| StoreMachine.RemovalIsFinal | src/store.rs:697-708 | after `remove` returned Ok(true), through any writes and kills, and any power losses if its directory fsync went through, the chat is in no memory state, state file or leftover temporary file until something adds it |
| StoreErasure.GoneForGoodIff | src/store.rs:697-755 | at every moment of every run, no writes, kills or power losses without an adding call can bring a chat back exactly when neither memory nor a directory entry nor a snapshot in a persist in progress holds it |
| StoreErasure.RemovalIsFinalIff | src/store.rs:697-755 | after Ok(true), with no power loss since, the chat is gone for good exactly when no directory entry older than the removal holds it; so after its own or any later call's directory fsync, and else some power loss brings it back |
| StoreErasure.OkFalseIsFinalIff | src/store.rs:699-708 | `remove` of a chat not in memory returns Ok(false) at once, and the chat is gone for good exactly when no directory entry and no snapshot in progress holds it |
| StoreErasure.CleanRun | src/store.rs:389-755 | once nothing in memory, directory or a persist in progress holds the chat (or holds it without account), no run without a call that can make it so makes anything hold it |
| StoreErasure.RestartCanFindIff | src/store.rs:337-755 | in every state a run reaches, some later restart finds a chat, or a chat without account, without another call that can make it so, exactly when memory, a directory entry or a snapshot in a persist in progress holds it so |
| StoreGaps.UnsyncedRemovalCanComeBack | src/store.rs:738-753 | a run in which `remove` returned Ok(true), the directory fsync failed and a power loss brings the chat back |
| StoreGaps.OkFalsePromisesNothing | src/store.rs:699-708 | a run in which `remove` returned Ok(false) and the next restart has the chat again |
| StoreSlotless.ZeroSlotsStep | src/store.rs:431-455 | restarts and wholesale `set`s of an empty account aside, a chat has no slot in memory only between the two critical sections of a `remove_account` that is about to drop it |
| StoreSlotless.SlotlessRestartIff | src/store.rs:431-755 | over every run, kills and power losses included, in which no snapshot is taken while a drop of the chat is pending (and no empty account is `set`), no restart begins with the chat without account; a later one can exactly while memory holds it so, its drop pending |
| StoreSlotless.GapCanReachTheDisk | src/store.rs:431-455 | for any writing call of another chat, a run in which its persist writes the slotless chat in that gap and a restart begins with a chat without account |
| StoreSlotless.AddedSlotIsSafeIff | src/store.rs:406-455 | a slot in memory stays through every run in which no other call of its chat mutates exactly when no `remove_account` of the chat waits to drop it |
| StoreModel.LeastKey | src/store.rs:258-261 | the first slot is the one whose key comes before all others |
| StoreModel.ReloadIsMigratedRecord | src/store.rs:151-230 | reading back what was written gives the same account exactly when no share lacks a parent |
| StoreModel.LegacyMigrationIsGood | src/store.rs:151-230 | a legacy record migrates to matching slot keys with a "default" slot, and is good exactly when the parents it names exist |
| StoreModel.KeepsGood | src/store.rs:381-708 | every operation keeps: each slot's key is its `slot_id`, no chat without slot, every share's parent exists, given the parent existed at opt-in |
| StoreModel.EveryRunKeepsGood | src/store.rs:381-708 | from good data, over every sequence of complete operations slot keys match, no chat is without slot and every share's parent exists |
| StoreModel.MigrationIsGoodIff | src/store.rs:151-230 | a record, unified or legacy, is read into a good account exactly when it has slots under their own ids and each share's parent, or "default" when absent, is a slot |
| StoreModel.EveryRunFromMigrationIsGood | src/store.rs:151-230 | from the records of a file, legacy or unified, that meet this condition, through every sequence of operations the data stays good |
| StoreModel.GoodSurvivesReload | src/store.rs:151-230 | a restart changes nothing in good data |
| StoreModel.RemoveAccountIsExact | src/store.rs:430-455 | removing a slot takes exactly it and the shares that connect through it; the chat goes exactly when it was the last slot; other chats stay |
| StoreModel.UnparentedReadingsAgreeIff | src/store.rs:58-63 | the two readings of a share without parent agree exactly when the first slot is "default" |
| StoreModel.OtherChatsUntouched | src/store.rs:381-708 | no operation touches another chat |
| StoreModel.OnlyAddingRecreates | src/store.rs:381-428 | an absent chat appears exactly through `set` or `add_account` of it |
| StoreLaws.OnlyWhatIsMeant | src/store.rs:381-708 | an operation's result is exactly the data in which what it sets reads back, every other field, slot, share and chat is as it was, `mute` adds its term at the end and `unmute` keeps the other terms in order |
| StoreLaws.AnswersAndWrites | src/store.rs:381-708 | a call answers true and writes exactly when its chat, slot or share is there (a muted term: not yet, or still, there); `set` and `add_account` always |
| StoreLaws.MigrationFields | src/store.rs:151-230 | each stored field, of either layout, is read into the field it is about; a record is refused exactly when it has neither slots nor the three legacy fields |
| StoreLaws.OrderIsLexicographic | src/store.rs:258-261 | the order of the slot keys is the lexicographic one |
| Store.DidWhatIsMeant | src/store.rs:381-708 | so every method of the store object does what its operation means |
| Disk.OutageLosesUnsynced | src/store.rs:722-753 | a power loss leaves a file that was fsynced as it was and makes any other unreadable |
| Store.ReopeningRestores | src/store.rs:337-358 | after an Ok that wrote, reopening the directory gives back the data in memory |
| Store.Store.constructor | src/store.rs:337-358 | opening reads the complete file, or starts empty |
| Store.Store.Persist | src/store.rs:710-755 | on success the new snapshot is in place and no temporary file is left; on any failure the state file is the old one |
| Store.Store.SetAccount | src/store.rs:381-387 | memory, disk and result are as specified: the chat's account is replaced, the new snapshot is on disk on Ok and the old one on an error |
| Store.Store.UpdateState | src/store.rs:389-404 | memory, disk and result as specified: the first slot's cursor moves; an unknown chat changes nothing |
| Store.Store.AddAccount | src/store.rs:406-428 | memory, disk and result as specified: the slot is stored under its own or the generated id, creating the chat if needed |
| Store.Store.RemoveAccount | src/store.rs:431-455 | memory, disk and result as specified: the slot and its children go, and the chat when it was the last slot |
| Store.Store.UpdateAccountState | src/store.rs:457-470 | memory, disk and result as specified: one slot's cursor moves, or nothing if it is gone |
| Store.Store.SetAccountThreadId | src/store.rs:473-493 | memory, disk and result as specified: one slot's topic is set, or nothing if it is gone |
| Store.Store.SetSharedAccountThreadId | src/store.rs:495-515 | memory, disk and result as specified: one share's topic is set, or nothing if it is gone |
| Store.Store.SetThreadsEnabled | src/store.rs:517-530 | memory, disk and result as specified: the chat's topic preference is set, if the chat exists |
| Store.Store.SetLanguage | src/store.rs:532-545 | memory, disk and result as specified: the chat's language is set, if the chat exists |
| Store.Store.SetSharedAccount | src/store.rs:547-573 | memory, disk and result as specified: a share is opted in, replacing an earlier record of it, if the chat exists |
| Store.Store.RemoveSharedAccount | src/store.rs:577-589 | memory, disk and result as specified: the share goes; reports whether it was there |
| Store.Store.UpdateSharedAccountState | src/store.rs:591-609 | memory, disk and result as specified: one share's cursor moves, or nothing if it is gone |
| Store.Store.Mute | src/store.rs:659-676 | memory, disk and result as specified: the term is added; reports whether it is new |
| Store.Store.Unmute | src/store.rs:678-695 | memory, disk and result as specified: every copy of the term goes; reports whether it was there |
| Store.Store.Remove | src/store.rs:699-708 | memory, disk and result as specified: the chat goes; reports whether it was there, and writes only then |
| Targets.CursorReadsBack | src/watcher.rs:69-112 | a cursor written for an active target is the one read back; any other target reads the new cursor exactly when it reads the same stored slot (the primary mailbox reads the first) or share, and its own old one otherwise |
| Targets.LeavesCursorKeepsIt | src/store.rs:389-609 | a call that does not write, replace or remove the record holding the cursor, nor its share's parent, nor put a slot before the first, leaves the cursor as it is |
| Targets.CursorWriteNeverRevives | src/watcher.rs:99-112 | for a target that is gone the cursor write changes nothing |
| Targets.ClearingStopsTheTopicIff | src/watcher.rs:478-493 | after a lost topic is cleared, later syncs of the target stop using it exactly when the cleared record is the one it was read from |
| Targets.TopicIs | src/topics.rs:272-310 | a notification goes to the topic of the slot its target names, the first slot's for the primary mailbox, the share's own or its parent's by configuration, and to none without topics or for a target that is gone |
| Targets.HealthKeyInjective | src/watcher.rs:149-157 | two targets share a registry key exactly when they are the same identity of the same chat, for any server-chosen ids |
| Targets.KeyOfChatIsExact | src/health.rs:129-135 | the prefix scan finds a key exactly when it is that chat's |
| Targets.KeysAsWritten | src/watcher.rs:149-214 | the registry keys as they stand in the metrics, with the name the default slot always had |
| Targets.SlotTargets | src/accounts.rs:145-156 | the slots come in key order, each once, with their own address, server and token |
| Targets.PersistedTargets | src/accounts.rs:145-171 | boot lists every slot with its own address, server and token, and every share whose parent resolves with its name and the server and token of the slot it names, or of the first when it names none; nothing else, each once; in good data every share |
| Targets.MigratedShareResumesIff | src/accounts.rs:157-169 | after migration boot resumes a share exactly when the slot it names, or "default" when it names none, exists |
| Lifecycle.StepKeeps | src/accounts.rs:47-115 | every step of adopters, teardowns, resumes, lookups and watchers keeps: locks have one holder, handles are of tasks nobody aborted, every such task has its handle or an adopter holding the lock |
| Lifecycle.AtMostOneWatcher | src/accounts.rs:47-115 | in every interleaving a key has at most one live watcher nobody aborted, the one whose handle is in the map or is about to be stored under the lock |
| LifecycleFacts.ForgetLeavesNothing | src/state.rs:236-263 | a finished `forget` that nobody's adoption, boot or client lookup of the chat overlapped leaves no registry entry, client, handle or unaborted watcher of the chat |
| LifecycleFacts.ForgetSparesOthers | src/state.rs:236-263 | no step of `forget` changes anything of another chat |
| LifecycleFacts.DropLeavesNothing | src/state.rs:266-300 | a finished teardown of one slot or share, with anything interleaved but somebody bringing it in, leaves no entry, client, handle or unaborted watcher of it |
| LifecycleFacts.ResumeDoes | src/accounts.rs:223-290 | each step of a boot resume: announce, read the store, give up and deregister, leave to another, or connect and adopt; a failed connect starts over |
| LifecycleFacts.LookupDoes | src/state.rs:134-232 | each step of a client lookup: a cached client or a lost target ends it, else it connects and caches |
| LifecycleFacts.AdopterDoes | src/accounts.rs:47-115 | each step of an adopter under the lock: cache, register, start, store the handle, release |
| LifecycleFacts.AdoptRefusedIff | src/accounts.rs:55-59 | an adoption is refused exactly when a task of the key was never aborted; refused while nothing watches exactly when that task has left |
| LifecycleFacts.EntryLostIff | src/health.rs:114-135 | a registry entry goes exactly when somebody deregisters that very target or chat |
| LifecycleFacts.WatchedStays | src/watcher.rs:256-340 | while a target stays in the store and nobody tears it down, the same watcher keeps running, its handle and its entry |
| LifecycleGaps.StaleHandleBlocksAdoption | src/watcher.rs:279-285 | a run after which the target is in the store, nothing watches it and the adoption was refused |
| LifecycleGaps.LateGiveUpHidesAWatcher | src/accounts.rs:233-249 | a run after which a live watcher has no registry entry |
| AppState.Watchers.ForgetAllForChat | src/state.rs:247-263 | exactly the chat's clients and handles go, and every task that lost its handle was aborted |
| AppState.Watchers.Forget | src/state.rs:269-273 | exactly one key's client and handle go, its task aborted |
| AppState.Watchers.Adopt | src/accounts.rs:91-112 | refused exactly when the key has a handle, and then nothing changes |
| AppState.AppState.Forget | src/state.rs:236-244 | the whole state after a chat's teardown: undo slot, entries, clients and handles of the chat gone, all else as it was |
| AppState.AppState.ForgetShared | src/state.rs:292-300 | the whole state after one share's teardown |
| AppState.AppState.ForgetAccount | src/state.rs:266-283 | the whole state after a slot's teardown: the slot and exactly the shares authorised under it |
| AppState.AppState.Adopt | src/accounts.rs:315-335 | an adoption of a slot or share caches the client, stores the handle and registers the entry as disconnected, or changes nothing |
| AppState.AppState.RegisterPersisted | src/accounts.rs:184-188 | after boot registration exactly the listed targets are added, all disconnected, and every other entry is as it was |
| AppState.TeardownMatchesRemoval | src/bot.rs:794-795 | the shares `forget_account` tears down are exactly the ones the store's `remove_account` gives up, also for the last slot |
| Resume.ResumeTarget | src/accounts.rs:223-290 | the loop stops at the first round that is not a failed connect, at which the target is gone from the store, held by another, or connected, in this order; only the first deregisters; its n-th sleep is 2, 4, 8 and so on to 256 and then 300 seconds |
| SyncCursor.Watched.Announce | src/watcher.rs:428-511 | one message adds itself to the trace, and counters and requests stay those of the trace |
| SyncCursor.Watched.SyncAndNotify | src/watcher.rs:408-516 | a failed fetch attempts nothing and leaves the cursor; an answered one handles exactly its messages and then moves the cursor; a missing cursor is only initialised |
| SyncCursor.Watched.Follow | src/watcher.rs:381-405 | the watcher's loop moves cursor and trace as the run specification says |
| SyncCursor.RunHandlesTheWindow | src/jmap.rs:388-462 | in every run the messages handled are those created between baseline and cursor, in order, and the attempts are exactly the non-skipped, non-muted ones among them |
| SyncCursor.EachOnce | src/watcher.rs:408-516 | no message is attempted twice in a run |
| SyncCursor.SyncsReachTheHead | src/jmap.rs:388-462 | n answered syncs of at least `step` changes reach the head or advance n times `step`, so full answers of 50 reach it after a fiftieth of the distance |
| SyncCursor.HonestSyncsReachTheHead | src/jmap.rs:388-462 | with an honest server that answers every sync, as many syncs as changes to read reach the head exactly |
| SyncCursor.NothingIsLostInCounting | src/watcher.rs:428-511 | delivered, failed, skipped, muted and vanished add up to the messages synced; each lost topic leads to exactly one more request; delivered counts the requests that succeeded |
| SyncCursor.LostTopicCostsTheSync | src/watcher.rs:415-511 | in a sync whose topic is gone, each announcement still tries that topic first and then the root chat |
| SyncCursor.AttemptsAreTheNotifiable | src/watcher.rs:560-610 | what is attempted is exactly what is worth announcing, in order |
| SyncLaws.MutedIff | src/watcher.rs:595-613 | a message is muted exactly when some filter is a stretch of its subject, a space, the sender's name, a space and the address, in lower case |
| SyncLaws.WordMutesIff | src/watcher.rs:587-594 | a filter without a space mutes exactly what has it in the subject, the sender's name or the address |
| SyncLaws.SkippedIff | src/watcher.rs:560-585 | a draft by mailbox or keyword, else a copy in the mailbox of sent mail, else a mail from the watched address but for ASCII case, is skipped for that reason, and nothing else is |
| SyncLaws.AnnouncedIffNews | src/watcher.rs:428-451 | a message is announced exactly when it is still there, none of these, and no filter is in it |
| SyncLaws.AttemptsAreTheNews | src/watcher.rs:428-511 | the announcements of any run are those of the news among its messages, in order |
| SyncLaws.CountersAreTrue | src/watcher.rs:428-511 | each counter counts the messages of its own verdicts |
| SyncLaws.RequestsOfOne | src/watcher.rs:453-505 | a message that is news leads to one request into its topic, which succeeds exactly when it arrived, and after a lost topic to one more into the root chat; no other leads to any |
| SyncCrash.StepKeeps | src/watcher.rs:441-515 | every step, kills and power losses included, keeps: the epoch's handled messages are exactly those up to the cursor plus the batch in progress, every cursor ever held is covered, cursors are ordered along the directory entries and into the epoch |
| SyncCrash.AtLeastOnce | src/watcher.rs:441-515 | in every run with kills and power losses, within an epoch each created message up to the cursor was handled once and in order, and no cursor a restart can find passes an unhandled message |
| SyncCrash.OnlyPastTheDurableRepeats | src/store.rs:457-470 | after any further steps, kills and power losses only messages at or past the cursor in the oldest possible directory entry are handled again |
| SyncStore.StepRefines | src/watcher.rs:441-515 | each step of the watcher over the real store, of any other call that leaves the watched record in place, or of a crash is at most one step of the cursor protocol |
| SyncStore.RunsRefine | src/store.rs:457-470 | every run over the store machine in which no other call writes, replaces or removes the watched record is a run of the cursor protocol, with cursors read out of the chat's record in each memory version |
| SyncStore.NoRestartSkips | src/watcher.rs:441-515 | in every such run each message created before the cursor of any version memory ever had, so of any file a restart may find, was handled |
| SyncStore.OnlyPastStableStorageRepeats | src/store.rs:710-755 | from any moment on, through kills and power losses, only messages at or past the cursor in the file on stable storage are handled again |
| Greedy.FilledIsFewest | src/format.rs:448-481 | a grouping that fills each group as far as it goes has the fewest groups of any grouping within the limit |
| Chunking.CutLine | src/format.rs:456-470 | an overlong line goes out without losing a character, and when each is within the limit as filled pieces, the last one left open |
| Chunking.ChunkText | src/format.rs:439-482 | at any limit no character of a line is lost; when each single one is within the limit the chunks are the joined, filled groups of exactly the lines' pieces, in order, but for the blank lines that meet no open chunk; empty text gives the placeholder |
| ChunkingFacts.EveryChunkFits | src/format.rs:439-482 | no chunk is empty or longer than the limit in UTF-16 units |
| ChunkingFacts.ChunksFitIff | src/format.rs:439-482 | at any limit all chunks are non-empty and within it exactly when each single character of the lines is |
| ChunkingFacts.LimitOneCanFail | src/format.rs:459-468 | one character of two UTF-16 units at limit 1 gives an empty or overlong chunk |
| ChunkingFacts.CharactersSurvive | src/format.rs:439-482 | the characters of the lines survive in order |
| ChunkingFacts.FittingLineStaysWhole | src/format.rs:439-482 | a line that fits sits whole, as a line, inside one chunk |
| ChunkingFacts.JoiningRestores | src/format.rs:439-482 | with no blank and no overlong line, joining the chunks with newlines gives the joined lines back |
| ChunkingFacts.JoiningRestoresIff | src/format.rs:448-481 | joining the chunks gives the joined lines back exactly when every line fits and each blank one meets an open chunk of length between 0 and the limit, both told from the lines and the limit, or the text is one blank line |
| ChunkingFacts.SplittingIsUnique | src/format.rs:439-482 | what is promised of the chunks determines them: two splittings of a text are equal |
| ChunkingFacts.FewestChunks | src/format.rs:448-481 | with no blank and no overlong line, no order-preserving split at line breaks within the limit has fewer chunks |
| ChunkingFacts.OverlongLineFewestPieces | src/format.rs:456-470 | one overlong line is cut into the fewest code-point pieces |
| ChunkingFacts.AdjacentChunksAreFull | src/format.rs:448-481 | two adjacent chunks total at least the limit |
| ChunkingFacts.ChunkCountBound | src/format.rs:439-482 | the number of chunks is bounded by twice the text's length over the limit |
| Markdown.EscapeMarkdown | src/format.rs:398-427 | the loop escapes each reserved character and nothing else |
| Markdown.EscapeMarkdownUrl | src/format.rs:222-234 | the loop escapes each `)` and backslash and nothing else |
| TextLaws.ReservedIs | src/format.rs:398-427 | the characters escaped are the ones the format's documentation lists, and the backslash |
| TextLaws.EscapeIs | src/format.rs:222-234 | escaping puts a backslash before each of them, in an address before a closing parenthesis or a backslash, and changes nothing else |
| TextLaws.TrimIff | src/format.rs:54-65 | trimming takes white space off both ends, all of it and nothing else |
| TextLaws.WhiteSpaceIs | src/format.rs:213-220 | white space is Unicode's White_Space, listed |
| TextLaws.LinesAreTheParts | src/format.rs:236-242 | the lines of a text are its parts between line feeds, without a carriage return before a line feed and without an empty last part |
| TextLaws.CutAtBreaks | src/format.rs:439-449 | every text has such parts, so this says what its lines are |
| TextLaws.Utf8LenCounts | src/format.rs:298-300 | a string's byte length is its characters, and one more for each from U+0080, from U+0800 and from U+10000 on |
| TextLaws.DigitsDenote | src/format.rs:130-150 | a printed number denotes the number, without leading zero |
| Markdown.LinesOfEscaped | src/format.rs:236-242 | escaping commutes with splitting into lines |
| Markdown.ReadBlockquote | src/format.rs:236-242 | a quoted escaped text reads as its own lines inside a quote |
| Markdown.ShowsLink | src/format.rs:189-234 | an inline link reads as its display text linked to its address, whatever either contains |
| Notification.Truncate | src/format.rs:20-26 | a longer field is its first characters and an ellipsis, any other is itself |
| Notification.PrintingThenReading | src/format.rs:32-97 | reading the rendered notification as MarkdownV2 gives exactly the template's bold captions, link and quote, with every field of the mail as plain text |
| NotificationFields.NotificationShows | src/format.rs:32-205 | whatever the mail contains a reader sees title, mailbox, sender, subject, date, the first five attachments and how many more, and the preview's lines, in that order: subject and preview without white space around them, each field whole or its first 300 (preview: 400) characters and an ellipsis, the sender linked to the shown address without blanks |
| NotificationFields.DisplayIsUnique | src/format.rs:32-205 | the mail leaves no choice about mailbox, sender, link, subject, date and preview shown |
| Notification.VisibleTextFits | src/format.rs:17-26 | the visible text stays under 4096 code points for any mail |
| NotificationUnits.UnitsFitIff | src/format.rs:6-18 | a notification fits 4096 UTF-16 units exactly when the characters outside the basic plane in the mail's truncated fields and in the template are no more than 4096 less the visible length, which 464 of them never exceed |
| NotificationUnits.BasicMailFits | src/format.rs:6-18 | a mail whose fields stay within the basic plane fits 4096 UTF-16 units, when captions and rendered texts are short and but for two icons in that plane |
| NotificationUnits.ShippedBasicMailFits | src/format.rs:6-97 | in both shipped languages a mail whose fields stay within the basic plane fits 4096 UTF-16 units |
| NotificationUnits.WideMailDoesNotFit | src/format.rs:6-18 | a mail with five attachments, a sender name and an address of 300 or more characters outside the basic plane does not fit |
| NotificationUnits.SomeMailDoesNotFit | src/format.rs:6-18 | there is such a mail |
| Notification.ShippedNotificationsReadAndFit | src/format.rs:32-97 | in both shipped languages the notification reads as its template and stays under 4096 code points |
| Notification.FrenchIsSafe | src/format.rs:32-97 | the French captions carry no markup of their own |
| Notification.EnglishIsSafe | src/format.rs:32-97 | the English captions carry no markup of their own |
| Callback.ActionRoundTrip | src/format.rs:258-263 | printing then parsing callback data recovers action, account and email exactly when no colon hides in the account, or in the email of a button without account |
| Callback.ValidIdsRoundTrip | src/bot.rs:1434-1439 | printing then parsing callback data recovers everything for all ids allowed by section 1.2 of RFC 8620 |
| Callback.ToggleRoundTrip | src/bot.rs:1441-1453 | a share toggle recovers share and slot exactly when the slot is not called "p" (or the share has no colon) |
| Callback.DefaultIsReachedIff | src/bot.rs:1185-1189 | a tap without account reaches the slot "default" exactly when no stored key comes before it |
| Callback.TapKeepsFaithful | src/bot.rs:1533-1730 | a tap on a live button of a true keyboard keeps it true exactly when it does not mark the mail read and lose the edit, nor undo a triage of a mail already read |
| Callback.KeyboardIsTrueIff | src/bot.rs:1533-1730 | along any run of taps, triage and undo included, the keyboard shows the true read state exactly when no mark-read lost its edit and no undo restored a read mail since the last mark-read or triage that went through |
| Callback.UndoForgetsTheReadState | src/bot.rs:1705-1712 | expand, mark read, archive, undo, all working, end with a false keyboard |
| Callback.LiveButtonsNameTheMail | src/format.rs:289-360 | along any run of taps, triage and undo included, every live button names the original message and account and fits 64 bytes |
| Callback.LiveButtonsStayTrue | src/bot.rs:1533-1730 | a live button never calls an unread mail read, and offers "mark as read" on a read mail exactly where the run's history says so |
| Callback.UndoKeyboardIsTrueIff | src/bot.rs:1705-1712 | the keyboard an undo puts back is true exactly when the mail is unread, or no button fits |
| Callback.SharedButtonsAreTrue | src/format.rs:366-396 | each button of the share menu toggles one listed share under its own slot and shows its opt-in; a share is missing only for its length |
| CallbackLaws.KeyboardsAre | src/format.rs:289-364 | each keyboard's buttons, row by row with their action letters, whole when the longest data fits 64 bytes and empty otherwise |
| CallbackLaws.TapDoes | src/bot.rs:1533-1730 | a tap on each live button leaves what its face says: the menu opens or closes with its read state, mark-read the read menu, a triage the undo button, an undo the fresh keyboard |
| CallbackLaws.SharesInOrder | src/format.rs:366-396 | shares whose data fits 64 bytes have one row each in the order given, with bell, name and data |
| Undo.StepKeeps | src/bot.rs:1331-1405 | every step of concurrent triages, undos, store operations, clients that are cached and dropped, other mail clients, which may also destroy messages, and the clock keeps the invariant |
| Undo.RestoresAreJustified | src/bot.rs:1690-1729 | whatever an undo writes is the mailbox set read just before a successful triage by that chat of a message of that account name and email, within 30 seconds of the slot being set, at most once per slot |
| Undo.RestoredIsTriagedIff | src/bot.rs:1575-1584 | the message written is the triaged one exactly when the client the button reaches, cached or made from the stored record, is at the undo tap of the same server and user (and share) as at the triage tap |
| Undo.TapsReach | src/bot.rs:1575-1584 | a named button reaches the share of that name before the slot, with the cached client before one made from the stored record |
| Undo.UndoTapUsesUpSlot | src/bot.rs:1690-1702 | every undo tap uses up the chat's slot and goes on exactly when slot, account name, message and the 30 seconds agree |
| Undo.TriageLeavesSlot | src/bot.rs:1382-1393 | an answered triage leaves a slot for 30 seconds with the mailboxes read before it, and touches no other chat's |
| Undo.ForgetDropsSlot | src/state.rs:236-238 | the teardown of a chat drops its slot and no other |
| Undo.UnnamedGoesTheSameWayIff | src/state.rs:163-171 | for a button without account that is exactly when the slot of the least key by then has a client of the same server and user; with none cached, a stored record of them |
| Undo.NamedSlotGoesTheSameWayIff | src/state.rs:134-160 | for a button that names a slot, with no client cached, exactly when the slot's stored server and user are the same |
| Undo.NamedShareGoesTheSameWayIff | src/state.rs:201-232 | for a button that names a share, with no client cached, exactly when its parent slot's stored server and user are the same |
| Undo.TapsGoTheSameWay | src/state.rs:119-132 | over every run, taps of a named button go the same way as long as the client its first tap left cached is not dropped or replaced, whatever becomes of the store (for a slot, while no share of that name can connect) |
| Undo.OtherLoginIsHit | src/bot.rs:1690-1729 | for any store calls and client teardowns between triage and undo that leave the button going to another account with a message of that id, a run in which the undo writes the triaged mail's mailboxes onto that message and the triaged one stays moved |
| Undo.UndoCanHitAnotherMail | src/bot.rs:1575-1584 | such a run for a button without account and any slot of lesser key and another mailbox added in between |
| Undo.ReboundSlotIsHit | src/bot.rs:318-352 | such a run for a button that names its slot, removed and logged in again under the same id to another mailbox |
| Undo.ReparentedShareIsHit | src/bot.rs:843-930 | such a run for a share opted out and in again under another parent |
| Undo.UndoRestoresIff | src/jmap.rs:616-686 | with anything else interleaved between the calls of a triage and of its undo but another writer of the message, the original mailbox set is restored exactly when the undo was tapped in the window and its client is of the same server and user as the triage's, or the triage moved nothing |
| Undo.UndoDesk.PerformTriage | src/bot.rs:1331-1405 | the mail moves and a slot is set only when everything before it worked; the whole state after it |
| Undo.UndoDesk.TapUndo | src/bot.rs:1690-1729 | a tap uses up the slot and restores exactly when slot, account, email, time and server agree; the gauge stays the number of slots |
| Reconnect.Watch | src/watcher.rs:265-339 | the loop's notices, sleeps, flag and failure count are those of the trace of stream outcomes |
| Reconnect.NoticesAlternate | src/watcher.rs:296-331 | notices strictly alternate starting with "broken", the last is "broken" exactly while five or more attempts in a row failed |
| Reconnect.FailuresAreARun | src/watcher.rs:311-315 | the failure count is the length of the run of failures at the end |
| Reconnect.NoticeIff | src/watcher.rs:296-331 | "broken" goes out exactly at the fifth consecutive failure, "recovered" exactly when a stream that opened drops after five or more |
| Reconnect.SleepsAreCappedPowers | src/watcher.rs:26-33 | the n-th sleep since start or last open is min(2^n, 300) seconds and never shrinks within a run of failures |
| Reconnect.SleepsStartAgain | src/watcher.rs:265-339 | after a stream that opened and dropped, as from the start, the sleeps are 2, 4, 8, 16, 32, 64, 128, 256 and then always 300 seconds until one opens again |
| Health.EscapeIsOnePass | src/health.rs:546-558 | the three chained replacements are one escaping pass |
| Health.EscapedLabelIsSafe | src/health.rs:546-558 | an escaped value has an exact inverse, no raw newline and no quote that ends it early |
| Health.LabelEscapes | src/health.rs:546-558 | backslash, double quote and line feed get their escapes of the text format, no other character changes |
| Health.LabelEscapesEach | src/health.rs:546-558 | a value is escaped character by character |
| Health.LabelsRoundTrip | src/health.rs:358-364 | a rendered label set parses back to its pairs |
| Health.RenderLabelsInjective | src/health.rs:358-364 | distinct label tuples render to distinct samples |
| Health.SamplesAreExact | src/health.rs:197-206 | for any history of increments each sample counts exactly its own name and label tuple |
| Health.Metrics.Inc | src/health.rs:198-206 | one increment extends the history by itself |
| Health.SweepIsExact | src/health.rs:129-135 | `deregister_chat` drops exactly that chat's targets |
| Health.Health.DeregisterChat | src/health.rs:129-135 | afterwards a target of any kind has its entry, unchanged, exactly when it had one and is of another chat |
| Health.Health.SetConnected | src/health.rs:87-98 | an update changes one entry's flag and never brings an entry back |
| Health.Health.Touch | src/health.rs:143-145 | an update changes one entry's activity clock and never brings an entry back |

## Left out

- Telegram and JMAP calls, TLS, EventSource streaming, the probe responder: their outcomes are parameters or nondeterministic steps.
- AES-GCM, the key file and file modes: sealing is part of taking the snapshot and may fail; a sealed file is `Whole` or `Torn`.
- `SyncCursor`: the address of the watched account, the topic and the lower-cased texts of a message are parameters.
- Generated slot ids are a parameter, and rename is atomic.
- JSON syntax: a stored account is a record of optional fields.
- Unicode case folding and white space beyond the listed characters: mute terms and the text they are looked up in are taken as already lower-cased.
- The u32 failure counter of the reconnect loop is unbounded here, and lock poisoning does not happen.
- `SyncCursor` and `SyncCrash`: the reply of `fetch_changed_emails` is one value; its three requests, and a vanished message's place in it, are not split further.
- SyncCursor.RunHandlesTheWindow: the server is taken to list created ids in the order of the log, which RFC 8620 section 5.2 does not promise; with another order the claim is about the same set of ids.
- SyncCursor.HonestSyncsReachTheHead: an id that was created and then destroyed must be listed as created; RFC 8620 section 5.2 lets a server leave it out, and then nothing of it is left to announce.
- ChunkingFacts.JoiningRestoresIff: is about limits at which each single character fits, so about every limit from 2 on; below that a chunk may be empty and joining says nothing.
- SyncStore.RunsRefine: a call that writes, replaces or removes the watched record itself (re-adding the account, opting in again, removing it) ends the run; what the next watcher does from the new record is a run of its own.
- `Disk.Outage`: when a rename is lost the temporary name does not come back with it; nothing ever reads that name.
- `Undo`: an account on a mail server is named by the URL and user its client logs in with, so two spellings of one of them count as two accounts; the teardown of a chat leaves the dropping of its clients to steps of their own.
- SyncCrash.AtLeastOnce: a message that the sync could no longer read counts as handled, because nothing is left to announce.
- `Lifecycle`: the watcher's own syncs and reconnects are not steps, because they change neither the maps nor the set of registry keys; making a topic under the lock is one step.
- Callback.KeyboardIsTrueIff: a mail read in another client is not seen by the bot, so the read state meant is the one this message's taps brought about.
- Notification.VisibleTextFits: counts code points as the field limits do (`NotificationUnits` counts UTF-16 units); the rendered date and sizes are opaque strings with bounded length.
- Locale lookup, date and size formatting, topic creation, configuration, logging, and the replies and menus of the other commands: they would only add easy members.
