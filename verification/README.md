# Node channel verification

A Dafny model of the stateful parts of the desktop channel, with proofs about them. Each
operation that the program performs in place is a class or a method proved against a function
on values; the properties are lemmas about those functions over every input and every run.

| part | files |
|---|---|
| The desktop copy of a tab's run log: handshake, append, trim, window reads, and the network between tab and copy | `PeerLog`, `PeerLogStore`, `PeerLogRuns`, `PeerLogReads`, `Replication`, `LogNetwork`, `LogFidelity`, `LogTroubles`, `LogBatches`, `Follower` |
| Telegram messages parked per chat, and which profile owns a chat | `Telegram`, `TelegramChannel`, `TelegramMailbox`, `TelegramTenure`, `TelegramBeats`, `TelegramSplit` |
| The pairing mailbox: codes, channels and their window of signals | `Signaling`, `SignalMailbox`, `SignalWindow`, `PairingCodes` |
| The relay's reconnect watcher, ICE candidates on both sides, and frames that come early | `ReconnectWatch`, `IceOffer`, `IceAnswer`, `IceExpansion`, `EarlyFrames` |
| mDNS names in candidates and SDPs | `Mdns`, `Sdp`, `SdpLines` |
| Speech: sentence splitting, WAV files, the clip cache | `SpeechText`, `SpeechPacking`, `Wav`, `ClipCache` |
| Lists and strings | `Lists`, `Text` |

Time is an explicit `now`. A file is a sequence of lines, an SQLite table a sequence of rows in
the order of its key. Networks, timers and awaits are nondeterministic steps of a state machine;
how an offer ends, when a file is oversized and which SDPs a connection refuses are parameters.
A `char` stands for one UTF-16 code unit.

## Findings

Where a promise does not hold for every input, the model keeps what the code does and says when
it does hold.

- Replication: a batch sent before a same-epoch reset and accepted after it may leave a hole
  (`LogTroubles.StragglerLeavesAHole`) or bring back rows of an emptied log, even when it starts at
  the beginning (`LogTroubles.RedeliveryOutlivesAClear`). An accepted batch, of whatever log, keeps
  the copy a prefix if and only if the rows it adds are the next rows of the log
  (`Replication.BatchFaithfulIff`), and a run does if and only if every accepted batch does
  (`LogFidelity.CopiesAreFaithfulIff`). For a slice of the log itself this means that it starts at
  or below the cursor or has nothing to store (`Replication.AppendFaithfulIff`).
- A log emptied under its epoch is noticed if and only if it has not grown back to the stored
  cursor (`LogTroubles.ClearIsNoticedIff`); otherwise two logs mix (`LogTroubles.RegrownLogIsMixed`).
- Trim: the comment promises to drop the oldest quarter; floor(3n/4) - 1 rows stay.
- Paging from 0 begins with the newest window and is complete if and only if all matches fit it
  (`Follower.PagingFromZeroIsCompleteIff`). The follow loop is complete if and only if at most
  `limit` matches wait at each poll.
- A failed turn whose content was too long to be stored as it is has lost its `status`, and the
  errors-only filter does not see it (`PeerLogReads.FailedTurnIsSeenIff`).
- Epochs restart at 0 after a binding was absent, and an absent binding refuses nothing. The relay
  guard decides rightly about a tenure if and only if the chat has stayed bound since, or is now
  bound at a later epoch or to another named profile (`TelegramTenure.GuardIsRightIff`); already
  after one absence an ended tenure may pass (`TelegramTenure.GapLetsAnOldTenurePass`).
- An ack of a chat on which nothing was ever parked is not recorded
  (`TelegramMailbox.AckIsRecordedIff`). Acks whose halves interleave bring back lines
  (`TelegramMailbox.InterleavedAcks`) and forget answered ids
  (`TelegramMailbox.InterleavedRecordsForget`).
- An offer's poll moves its cursor past a batch before handling it, so whatever stands behind a
  signal that throws is lost (`IceOffer.AnswerBehindAThrowIsLost`, `IceOffer.BatchIsHandledIff`).
- An SDP that starts with an expandable candidate line has its copies run together when the
  machine has several addresses (`SdpLines.CopiesAreLinesIff`).
- The clip cache's counter drifts when two calls for one key overlap (`ClipCache.OverlapDrifts`),
  and the room it takes is lost for good (`ClipCache.DriftTakesRoomForGood`). A clip that replaces
  an old one may be evicted by its own insertion (`ClipCache.SurvivesIff`).
- A terminator that stands first or behind another one's closers and spaces is left out of speech
  when the text is too long for one piece (`SpeechText.ChunksKeepInkIff`).
- The two WAV readers select the same bytes when every chunk before `data` has even size. Behind
  even chunks, an odd one other than `fmt ` directly before `data`, with its pad byte, keeps them
  from ever taking the same chunk, so that they agree only when the payload stands in the file
  twice (`Wav.OddChunkBeforeData`).

## Model

| member | source | states |
|---|---|---|
| PeerLogReads.NormalizeIs | src/bridge/peer-log.ts:232-266 | exactly what can be stored: a positive address and a kind that is not blank; the row keeps the address and the first 64 characters of the trimmed kind |
| PeerLogReads.CutKindMayEndInASpace | src/bridge/peer-log.ts:261 | the cut to 64 comes after the trim, so a stored kind may end in a space |
| PeerLogReads.ContentIsKept | src/bridge/peer-log.ts:239-252 | content of at most 256 Ki characters is stored as it is, longer content as its length and its first 4 Ki characters |
| PeerLogReads.EventIsReadBack | src/bridge/peer-log.ts:232-394 | a round trip: an event that can be stored, sent to a fresh copy, is read back as one row with its address, run, definition, branch, iteration, scope, kind and content each in its own field |
| PeerLogReads.EveryRowCarriesAnEvent | src/bridge/peer-log.ts:232-334 | over every run of handshakes, appends and trims each stored row carries, field by field, an event of an accepted batch |
| PeerLogReads.EveryNewEventIsStored | src/bridge/peer-log.ts:273-334 | an event among the first 500 of an accepted batch that can be stored, is above the cursor and is alone with its address gets a row that carries it |
| PeerLogReads.OnlyFiveHundredCount | src/bridge/peer-log.ts:273-297 | what stands behind the first 500 events of a batch is not even counted |
| PeerLogReads.LimitIs | src/bridge/peer-log.ts:341 | a missing limit or 0 means 20; any other is taken into 1 to 1000 |
| PeerLogReads.WindowIs | src/bridge/peer-log.ts:342-371 | a window holds stored matching rows above `after`, ascending, at most `limit`; whatever matches and is left out lies beyond a full window: above it when there is an `after`, below it when there is none |
| PeerLogReads.ErrorsAreRead | src/bridge/peer-log.ts:343-352 | an errors-only window holds failed model calls, failed tool calls and turns with status `error` and nothing else, and all of them while it asks from the beginning and is not full |
| PeerLogReads.KindsAreRead | src/bridge/peer-log.ts:353-356 | a window asked for by name holds rows of the trimmed names only, and all of them while it asks from the beginning and is not full; blank names ask for nothing, and without a name every kind is read |
| PeerLogReads.FailedTurnIsSeenIff | src/bridge/peer-log.ts:346-352 | a turn that ended in an error is in the errors-only set if and only if its content was short enough to be stored as it is |
| PeerLogReads.LongFailureIsMissed | src/bridge/peer-log.ts:246-252 | a failed turn of more than 256 Ki characters is in no errors-only window, whatever else is stored and whatever the limit |
| PeerLogReads.LongFailureExists | src/bridge/peer-log.ts:232-266 | there is such a turn, and a fresh copy that is sent it stores it |
| PeerLogStore.PeerLogCopy.Handshake | src/bridge/peer-log.ts:208-229 | a blank epoch changes nothing and is refused; otherwise the copy becomes the value-level handshake of the old one |
| PeerLogStore.PeerLogCopy.Collect | src/bridge/peer-log.ts:286-297 | the batch loop keeps exactly the storable rows above the cursor, in order, and counts the rest that cannot be stored |
| PeerLogStore.PeerLogCopy.InsertRows | src/bridge/peer-log.ts:299-321 | the transaction ends with every row placed by address, counts the rows that were new and finds the highest address |
| PeerLogStore.PeerLogCopy.Append | src/bridge/peer-log.ts:273-334 | the whole of one append: refusal of another epoch, the rows, the cursor, both counts, and the trim afterwards |
| PeerLogStore.PeerLogCopy.TrimIfOversized | src/bridge/peer-log.ts:153-188 | the trim of the object is the trim whose effect `TrimKeepsNewest` states |
| PeerLogStore.PeerLogCopy.Read | src/bridge/peer-log.ts:337-394 | a reader gets the epoch, cursor and count, and rows with the window property of `WindowIs`; nothing changes |
| PeerLogRuns.SortBySeqSorts | src/bridge/peer-log.ts:298 | the sort orders by address and only rearranges |
| PeerLogRuns.InsertKeeps | src/bridge/peer-log.ts:303-321 | inserting keeps addresses strictly ascending, loses no row, adds at most the new one, and never duplicates an address |
| PeerLogRuns.TrimKeepsNewest | src/bridge/peer-log.ts:166-175 | a trim keeps exactly the newest floor(3n/4) - 1 rows and leaves epoch and cursor (the comment says a quarter is dropped; one row more is) |
| PeerLogRuns.TrimLeavesTiny | src/bridge/peer-log.ts:165-168 | without pressure, or with fewer than two rows, nothing is trimmed |
| PeerLogRuns.RunKeepsValid | src/bridge/peer-log.ts:153-334 | over every run of handshakes, appends and trims rows are strictly ascending, at or below the cursor, and absent before a first epoch |
| PeerLogRuns.RowsComeFromTheEpoch | src/bridge/peer-log.ts:208-334 | every stored row was carried by a batch of the current epoch accepted since the last reset |
| PeerLogRuns.TrimmedRowsStayAway | src/bridge/peer-log.ts:153-334 | an address at or below the cursor that is not stored stays away until a reset, however often it is sent again |
| Replication.AppendExtends | src/bridge/peer-log.ts:273-334 | a slice of the log that starts at or below the cursor extends the copy to its own end, or changes nothing if it ends earlier |
| Replication.BatchFaithfulIff | src/bridge/peer-log.ts:273-334 | one accepted batch, whatever it carries and whichever log it is of, keeps the copy a stretch of a log if and only if its rows above the cursor, sorted and without repeated addresses, are the next storable rows of that log |
| Replication.AppendFaithfulIff | src/bridge/peer-log.ts:273-334 | one accepted slice keeps the copy a prefix of the log if and only if it starts at or below the cursor or carries nothing to store |
| Replication.HeldRowsAreThePrefix | src/bridge/peer-log.ts:273-334 | holding a slice of the log means being its storable rows at or below the cursor, less the oldest that trims dropped |
| LogNetwork.CopyIsAPrefixOfTheLog | src/bridge/peer-log.ts:208-334 | under any loss, repetition and delay of batches and acks, and while the tab restarts or empties its log, the copy is the storable rows of one life of the log at or below the cursor, less the trimmed ones, and of the present log once the tab has heard a cursor for it |
| LogNetwork.NothingDroppedWithoutTrim | src/bridge/peer-log.ts:153-188 | without a trim the copy is that whole prefix |
| LogFidelity.CopiesAreFaithfulIff | src/bridge/peer-log.ts:208-334 | over every run, stragglers and unnoticed clears included, the copy is in every state a stretch of the log it was last reset for if and only if every accepted batch continued that log |
| LogFidelity.FittingCopyIsThePrefix | src/bridge/peer-log.ts:208-334 | and then it is the storable rows of that log at or below the cursor, less the trimmed ones |
| LogFidelity.UntroubledRunsFit | src/bridge/peer-log.ts:208-334 | without a straggler and an unnoticed clear every accepted batch continues the log |
| LogTroubles.HonestRunsNeedNoProviso | src/bridge/peer-log.ts:208-229 | a tab that reports its true maximum, or none, and never empties its log needs no proviso |
| LogTroubles.ClearIsNoticedIff | src/bridge/peer-log.ts:216-225 | told the true maximum of a log emptied under its epoch, the desktop resets if and only if the log has not grown back to the stored cursor; told none, never |
| LogTroubles.MixedCopyIsFaithfulIff | src/bridge/peer-log.ts:273-334 | after an unnoticed clear, the copy with a slice of the new log is that log's rows at or below the cursor less its d oldest if and only if the copy was before, for every d |
| LogTroubles.StragglerLeavesAHole | src/bridge/peer-log.ts:208-334 | a run from the start in which a batch from before a same-epoch reset is accepted after it does not continue the log and leaves a hole |
| LogTroubles.StragglerOutlivesAClear | src/bridge/peer-log.ts:208-334 | the same with a truthful tab: its log was emptied, the clear is noticed, and a row of the old log is stored |
| LogTroubles.RedeliveryOutlivesAClear | src/bridge/peer-log.ts:208-334 | the same with a batch from the beginning of the emptied log that is delivered twice |
| LogTroubles.RegrownLogIsMixed | src/bridge/peer-log.ts:208-334 | a run from the start in which a cleared log has grown back: the clear is not noticed and the copy mixes rows of both logs |
| LogTroubles.TroubledRuns | src/bridge/peer-log.ts:208-334 | the hole and the mixture with concrete rows |
| LogBatches.FeedIsExtension | src/bridge/peer-log.ts:273-334 | batches of an ascending list, part of which may be stored already, with earlier ones repeated at any later point, leave the copy that the list alone would |
| LogBatches.InsertedIsGrowth | src/bridge/peer-log.ts:299-329 | the `inserted` counts of a schedule of batches sum to the growth of the copy |
| LogBatches.CutsDoNotMatter | src/bridge/peer-log.ts:273-334 | two ways to cut one list into batches of at most 500 give the same rows, cursor and total count, namely the storable rows above the cursor at the start, also when the list overlaps stored rows |
| Follower.AppendGrows | src/bridge/peer-log.ts:273-334 | an append without a trim leaves the old rows in place and adds rows above the old cursor only |
| Follower.ReadersSeeAGrowingRun | src/bridge/peer-log.ts:273-334 | reads at any moments of a run without clears and trims see a copy that only grows |
| Follower.WindowFits | src/bridge/peer-log.ts:357-371 | a window is all matching rows when they fit the limit, and exactly `limit` of them when they do not |
| Follower.PagerReadsEveryHitOnce | src/bridge/peer-log.ts:357-371 | paging by the last address returned continues where the page before ended, from a start above 0 and on a copy that grows meanwhile: every match once, in order |
| Follower.PagerFinishes | src/bridge/peer-log.ts:357-371 | on a copy that stands still, n pages from a start above 0 read at least n matches or all of them, whatever the limit |
| Follower.PagerFromZeroReads | src/bridge/peer-log.ts:361-371 | paging from 0 waits for a match and begins with the newest window: from then on every newer match is read once, in order, and the older ones never |
| Follower.PagingFromZeroIsCompleteIff | src/bridge/peer-log.ts:361-371 | on a copy that stands still, paging from 0 reads every match if and only if they fit one window |
| Follower.PagingFromZeroMissesARow | src/bridge/peer-log.ts:361-371 | two rows and a limit of 1: the first is never read |
| Follower.Follow | scripts/peer-log.ts:234-245 | the follow loop prints the windows asked for from the larger of the stream cursor and `--after` |
| Follower.FollowIsCompleteIff | scripts/peer-log.ts:183-190 | the follow loop prints every match above its start once and in order if and only if at most `limit` matches wait at each poll |
| TelegramChannel.Channel.ParkMessage | src/telegram-bridge.ts:152-156 | parking appends one line to one chat and touches nothing else |
| TelegramChannel.Channel.ReadMailbox | src/telegram-bridge.ts:159-182 | reading returns the well-formed entries of a chat, in order, skipping torn lines |
| TelegramChannel.Channel.ClaimChat | src/telegram-bridge.ts:207-231 | the claim of one chat: who is refused, when a binding is made, handed over or dropped, and what is returned |
| TelegramChannel.Channel.ClaimPending | src/telegram-bridge.ts:199-235 | the whole claim loop, in directory order, is one simultaneous claim of every chat with a mailbox |
| TelegramChannel.Channel.BeatProfile | src/telegram-bridge.ts:238-248 | a beat refreshes the bindings of one profile that are at least a second old, and no other |
| TelegramChannel.Channel.SweepOnce | src/telegram-bridge.ts:338-348 | a sweep drops exactly the bindings whose heartbeat has expired and no message |
| TelegramChannel.Channel.BridgeOff | src/telegram-bridge.ts:332-335 | an unlink drops one binding and no message |
| TelegramChannel.Channel.AckRead | src/telegram-bridge.ts:251-271 | the read half of an ack keeps every line whose id is not named, torn lines included |
| TelegramChannel.Channel.AckWrite | src/telegram-bridge.ts:272-275 | the write half replaces the file by the lines of the reading and records the ids |
| TelegramChannel.Channel.MarkAnswered | src/telegram-bridge.ts:292-300 | answered ids are merged without repeats and cut to the newest hundred |
| TelegramChannel.Channel.AckMessages | src/telegram-bridge.ts:251-276 | an ack without ids, or of a chat without a file, changes nothing and records nothing; otherwise it is both halves |
| TelegramChannel.Channel.RelayGuard | src/index.ts:275-286 | the guard decides by the profile and epoch the request carries against the chat's binding |
| TelegramChannel.RepliesCarryTheEpoch | src/telegram-bridge.ts:216-234 | a claim's reply names exactly the chats it served, with the epoch they have afterwards, and a relay carrying it passes the guard |
| TelegramMailbox.MailboxConserves | src/telegram-bridge.ts:152-276 | over every run a chat's file is, in arrival order, exactly the lines that arrived and that no later ack names; torn lines are always kept |
| TelegramMailbox.ClaimReturnsEveryEntry | src/telegram-bridge.ts:199-235 | a claim by the owner, or by anyone when the chat is unbound or its heartbeat 15 seconds old, returns every readable entry in order; any other claim returns none |
| TelegramMailbox.ParkedMessagesAreClaimed | src/telegram-bridge.ts:152-235 | over every run, a parked message that no later ack names is in every claim that may have the chat, with its own id, text and time |
| TelegramMailbox.ClaimedMessagesWereParked | src/telegram-bridge.ts:152-235 | over every run, whatever a claim returns was parked on that chat with that id, text and time, and the claimer may have the chat |
| TelegramMailbox.SplitAckLosesWhatArrived | src/telegram-bridge.ts:251-276 | with an ack's read and rename apart and no other ack of the chat in between, exactly the lines parked on it in between are lost |
| TelegramMailbox.SplitAckIsSafeIff | src/telegram-bridge.ts:251-276 | with no other ack of the chat in between, the split ack equals the atomic one if and only if nothing it should keep was parked in between |
| TelegramMailbox.SplitAckAmongOthers | src/telegram-bridge.ts:251-276 | with any operations in between, other acks among them: exactly what the split ack leaves and what the atomic one would |
| TelegramMailbox.InterleavedAcks | src/telegram-bridge.ts:251-276 | two acks that both read before either writes: the later one brings back what only the other removed, and they end as if ordered if and only if there is no such line |
| TelegramMailbox.InterleavedRecordsForget | src/telegram-bridge.ts:292-300 | when the second ack read the answered ids before the first wrote them, exactly the ids that only the first answered are missing in the end, although it had recorded them; while nothing is cut off, that makes no difference if and only if there are none |
| TelegramMailbox.AckIsRecordedIff | src/telegram-bridge.ts:251-276 | an ack is recorded if and only if something was ever parked on the chat; otherwise it changes nothing |
| TelegramMailbox.FileIffSomethingArrived | src/telegram-bridge.ts:152-156 | a chat has a mailbox file if and only if something was ever parked on it |
| TelegramMailbox.AnsweredIdsAfterAck | src/telegram-bridge.ts:279-300 | after an ack the answered ids are the known ones, then the new ones of the ack, without repeats, cut to the newest hundred |
| TelegramTenure.EpochCountsOwnerChanges | src/telegram-bridge.ts:207-226 | a chat's epoch is the number of owner changes since its binding was last absent, over every run |
| TelegramTenure.OwnerChangesOnlyInAStaleClaim | src/telegram-bridge.ts:207-226 | an owner changes only in a claim by the new owner of a binding at least the TTL old with something waiting, and the epoch moves exactly then |
| TelegramTenure.ServedChatsAreReturned | src/telegram-bridge.ts:214-231 | every served chat gets an epoch, the claimer as owner and a fresh beat |
| TelegramBeats.BeatRefreshes | src/telegram-bridge.ts:238-248 | after a beat every chat of the profile has a heartbeat less than a second old, with owner and epoch as they were; other profiles' bindings stay untouched |
| TelegramBeats.BeatProtects | src/telegram-bridge.ts:199-248 | for 14 seconds after a beat no sweep and no claim changes owner or epoch of the profile's chats |
| TelegramBeats.BeatingKeepsTheTenure | src/telegram-bridge.ts:199-348 | over every run in which the owner beats so that no sweep or claim comes more than 14 seconds after a beat, and nobody unlinks the chat, the tenure lasts |
| TelegramBeats.SilenceLosesTheChat | src/telegram-bridge.ts:207-226 | after 15 seconds of silence a sweep drops the binding, and another profile's claim with something readable waiting takes the chat one epoch on |
| TelegramTenure.RelayPassesIffTenureLasts | src/index.ts:275-286 | while a chat stays bound, a relay carrying what a claim returned passes if and only if that tenure has lasted until now, also after the chat has gone to another profile and back |
| TelegramTenure.GuardIsRightIff | src/index.ts:275-286 | over every run, the guard lets a relay carrying what a claim returned pass exactly when that tenure has lasted, if and only if the chat has stayed bound since or is now bound at a later epoch or to another named profile |
| TelegramTenure.BindingsEndIff | src/telegram-bridge.ts:207-215 | a binding disappears in exactly three ways: a sweep when it is 15 seconds old, an unlink, and another profile's claim of it at that age with nothing readable |
| TelegramTenure.EpochRestarts | src/telegram-bridge.ts:216-224 | after an absence the epoch starts again at 0 |
| TelegramTenure.GapLetsAnOldTenurePass | src/telegram-bridge.ts:332-352 | why the chat must stay bound: a relay of an ended tenure passes as soon as the binding is absent, is refused while another profile holds the chat, and passes again after that |
| TelegramSplit.ChunkForTelegram | src/telegram-bridge.ts:355-367 | the loop terminates and computes the splitter of the lemmas below |
| TelegramSplit.Chunk | src/bot.ts:69-81 | the bot's copy computes the same function |
| TelegramSplit.BothSplittersAgree | src/bot.ts:69-81 | the two copies agree on every text |
| TelegramSplit.SplitFits | src/telegram-bridge.ts:355-367 | every piece is at most `size` long, for every text and size of at least 1 |
| TelegramSplit.SplitRejoins | src/telegram-bridge.ts:355-367 | the text is the pieces in order, with only newline runs after cuts and a white-space tail left out |
| TelegramSplit.SplitIsCutRight | src/telegram-bridge.ts:354-366 | every piece of a text that is too long ends at the latest newline of the second half of the window that begins with it, or is a whole window when that half has none; newline runs behind pieces and a blank tail of at most `size` are all that is left out |
| TelegramSplit.FirstPieceEnds | src/telegram-bridge.ts:360-361 | the first piece of such a text, said on the characters of the text |
| TelegramSplit.CutIsAtTheLatestNewline | src/telegram-bridge.ts:360-361 | a cut is at the latest newline of the window's second half, and breaks a line only when there is none |
| SignalMailbox.MailboxChannel.Append | src/bridge/mailbox.ts:164-183 | appending numbers the entry, keeps the newest 500 and moves the activity time, also on a channel no longer listed |
| SignalMailbox.MailboxChannel.Read | src/bridge/mailbox.ts:185-187 | a feed is the retained entries above the cursor, in order |
| SignalMailbox.Mailbox.CreatePairing | src/bridge/mailbox.ts:72-80 | a pairing channel is listed last with its code and expiry; what is shown is the code with a dash |
| SignalMailbox.Mailbox.CreateReconnect | src/bridge/mailbox.ts:83-104 | a reconnect channel is listed without a code |
| SignalMailbox.Mailbox.JoinChannel | src/bridge/mailbox.ts:111-134 | a join by channel id has exactly the outcome and the effect of the value-level join |
| SignalMailbox.Mailbox.JoinAny | src/bridge/mailbox.ts:141-155 | the search over the channels spends the oldest one the code fits |
| SignalMailbox.Mailbox.Append | src/bridge/mailbox.ts:164-183 | a listed channel's entry changes and nothing else in the table |
| SignalMailbox.Mailbox.Close | src/bridge/mailbox.ts:189-192 | closing unlists the channel and marks it closed, whether it was listed or not |
| SignalMailbox.Mailbox.CloseAll | src/bridge/mailbox.ts:194-198 | every channel is closed and the table empty |
| SignalMailbox.Mailbox.Remove | src/bridge/mailbox.ts:200-204 | removing leaves all other channels as they were |
| SignalMailbox.Mailbox.Prune | src/bridge/mailbox.ts:206-212 | the loop that removes while it iterates drops exactly the outdated channels, closes them and keeps the order of the rest |
| SignalWindow.AppendHolds | src/bridge/mailbox.ts:164-174 | every append keeps the window exactly the newest 500 of all signals, numbered from 1 |
| SignalWindow.RetainedBlock | src/bridge/mailbox.ts:164-174 | retained numbers are the consecutive block that ends at nextSeq - 1 |
| SignalWindow.FeedIsGaplessIff | src/bridge/mailbox.ts:185-187 | a feed has no gap if and only if the reader is at most 500 signals behind |
| SignalWindow.ReaderGetsEverythingIff | src/bridge/mailbox.ts:164-187 | over every run from a channel's creation a cursor reader has got every signal up to its cursor once and in order if and only if it was never more than 500 behind at a poll |
| PairingCodes.JoinSucceedsIff | src/bridge/mailbox.ts:111-134 | a join succeeds if and only if the channel is open, unspent, unexpired, the code fits and the profiles do not clash |
| PairingCodes.JoinSpends | src/bridge/mailbox.ts:129-133 | a join that succeeds leaves its channel spent, active now and of the joining profile if that has a name, and changes nothing else |
| PairingCodes.JoinByCodeSpends | src/bridge/mailbox.ts:141-155 | a join by a bare code spends its channel too, and leaves its profile |
| PairingCodes.RefusedJoin | src/bridge/mailbox.ts:113-128 | a refused join changes nothing, or adds one to that channel's counter, or removes exactly that channel on the tenth; a failure is counted exactly for a wrong code on an open, unspent, unexpired channel |
| PairingCodes.JoinByCodeIs | src/bridge/mailbox.ts:141-155 | a bare code is refused if and only if it fits no channel, and then changes nothing; otherwise it spends the oldest it fits and touches no other |
| PairingCodes.BareJoinIsANamedJoin | src/bridge/mailbox.ts:111-155 | a bare code does to the channel it spends what a join by id without a profile would, and is refused exactly when no such join would succeed |
| PairingCodes.PruneKeepsIff | src/bridge/mailbox.ts:206-212 | the sweep keeps a channel if and only if it was active in the last 30 minutes when it is spent, or in the last 10 when it is not |
| PairingCodes.TableStaysSound | src/bridge/mailbox.ts:72-212 | over every run the table lists open channels only, each once, all with fewer than ten failed joins |
| PairingCodes.CodesAreSingleUse | src/bridge/mailbox.ts:111-155 | over every run a channel's code is spent at most once, by either kind of join, and at most ten wrong codes are ever counted against it |
| PairingCodes.ReconnectChannelsAreNeverSpent | src/bridge/mailbox.ts:83-86 | no join ever spends a channel without a code |
| PairingCodes.ShownCodeJoinsOnce | src/bridge/mailbox.ts:72-80 | the code as displayed joins its channel until it expires, and only once |
| ReconnectWatch.RelayTransport.ScanFeed | src/bridge/relay.ts:634-677 | one pass over a feed: what is skipped, consumed and offered, where the pass stops, and that it returns the last offered request if and only if its channel opened |
| ReconnectWatch.EveryRequestIsOfferedOnce | src/bridge/relay.ts:618-681 | over every run the offered requests are exactly the browser's requests at or below the cursor, the first of each nonce, in order |
| ReconnectWatch.NoRequestIsSkippedOrRepeated | src/bridge/relay.ts:643-657 | no browser signal that asks to reconnect with a nonce and lies at or below the cursor is missing, no nonce is offered twice, nothing else is offered |
| ReconnectWatch.CursorNeverDecreases | src/bridge/relay.ts:618-681 | the cursor never decreases, through failures and offers |
| ReconnectWatch.EveryPollMakesProgress | src/bridge/relay.ts:650-677 | a poll leaves nothing unanswered in the log or answers one request more, so a request behind an answered one in the same feed is not lost |
| IceOffer.OfferSide.TakeAll | src/bridge/relay.ts:447-455 | candidates wait until the answer is set and are added from then on, each expanded in place |
| IceOffer.OfferSide.Drain | src/bridge/relay.ts:464-466 | draining adds what waited, in order, and leaves nothing waiting |
| IceOffer.OfferSide.Handle | src/bridge/relay.ts:427-468 | what one signal does to the offer, and which signals throw or end it |
| IceOffer.CandidatesAreAddedInOrder | src/bridge/relay.ts:427-468 | after any signals, nothing is added before an answer is set; from then on every candidate of this generation has been added once, in the order of arrival |
| IceOffer.BatchIsHandledIff | src/bridge/relay.ts:475-478 | a batch is handled to its end if and only if no signal but its last is the browser's error or goodbye, asks for another generation, or is an answer without an SDP, or with a refused one, while none is set |
| IceOffer.PollsHearWhatTheyHandle | src/bridge/relay.ts:470-497 | over every sequence of polls the handled signals are all the delivered ones if and only if, before the offer ended, no signal but the last of its batch was one of those |
| IceOffer.HarmlessFeedsAreComplete | src/bridge/relay.ts:427-497 | over every way to poll a feed of candidates and acceptable answers everything is handled, and once an answer is among it every expanded candidate has been added exactly once, in order |
| IceOffer.EveryDeliveredCandidateIsAdded | src/bridge/relay.ts:470-497 | when no batch was cut short in that sense, every delivered candidate has been added once and in order, or waits while there is no answer |
| IceExpansion.OfferedCandidatesAreExpanded | src/bridge/relay.ts:427-497 | over every sequence of polls, with plain host addresses: no candidate that was added or waits is a `.local` name, every candidate of a handled signal of this generation is there, a `.local` name once for every host with its other tokens, and nothing else is |
| IceExpansion.DescriptionIsExpanded | src/bridge/relay.ts:457-468 | over every sequence of polls, with plain host addresses, the description is that of a handled answer of this generation, with every line that can be expanded expanded and every other kept |
| IceOffer.AnswerBehindAThrowIsLost | src/bridge/relay.ts:473-497 | because the cursor moves first, an answer behind a throwing signal in one batch is never set, although polling goes on; in two batches it is |
| IceAnswer.NothingIsAddedEarlyAndTheBufferInOrder | src/bridge/peer.ts:209-232 | under every interleaving of the handlers nothing is added before the description is set, and what waited is added in the order its handlers came to it |
| IceAnswer.EveryCandidateIsAddedOnce | src/bridge/peer.ts:209-250 | under every interleaving, once an offer was sent and the handlers are through, each expanded candidate has been added exactly as often as it was sent, before the session attached or after |
| IceExpansion.AnsweredCandidatesAreExpanded | src/bridge/peer.ts:209-250 | under every interleaving, with plain host addresses, no added candidate is a `.local` name, and each comes from a candidate of a signal of the browser |
| IceExpansion.EverySentCandidateIsServed | src/bridge/peer.ts:209-250 | once an offer was sent and the handlers are through, every candidate of every signal has been added, a `.local` name for every host |
| IceAnswer.QuietMeansOffered | src/bridge/peer.ts:222-227 | a session whose handlers are through has set a description if and only if it was sent an offer with one |
| IceAnswer.StepsUseUpWork | src/bridge/peer.ts:209-250 | every step but an arrival changes nothing or leaves less to do, so handlers come to an end |
| IceAnswer.RunsCanFinish | src/bridge/peer.ts:209-250 | no run gets stuck before every handler is through |
| EarlyFrames.FrameGate.OnFrame | src/bridge/relay.ts:307-322 | a frame goes to the handler, or waits while fewer than 200 do, or is dropped |
| EarlyFrames.FrameGate.OnMessage | src/bridge/relay.ts:385-394 | attaching hands over what waits, in order, and leaves nothing waiting |
| EarlyFrames.FramesInOrder | src/bridge/relay.ts:306-394 | over every run handlers get, in order, the first 200 frames that came before one was attached and all that came after |
| EarlyFrames.NoFrameIsMissingIff | src/bridge/relay.ts:306-394 | no frame is missing if and only if at most 200 came before a handler was attached |
| IceAnswer.NothingIsAddedTwice | src/bridge/peer.ts:209-250 | at every moment nothing has been added more often than it was sent |
| IceAnswer.EachSignalHasOneHandler | src/bridge/peer.ts:240-250 | each signal is handled by the listener or by the replay, never by both |
| Mdns.ExpandIs | src/bridge/mdns.ts:29-41 | a `.local` candidate becomes one per host, equal in every token and property but the address; any other stays |
| Mdns.WholeTextTestIsImplied | src/bridge/mdns.ts:32-35 | the first test on the whole text never decides: the test of the address token implies it |
| Mdns.ExpandAllTwice | src/bridge/mdns.ts:29-41 | expanding candidates twice is expanding them once, when no host is a `.local` name |
| Mdns.SplitJoin | src/bridge/mdns.ts:33-39 | joining tokens without spaces and splitting again gives the tokens back |
| Sdp.ExpansionIsByLine | src/bridge/mdns.ts:44-58 | on every SDP the global replace expands each candidate line by itself and leaves every other line in place |
| SdpLines.ExpandedLine | src/bridge/mdns.ts:45-57 | an expandable line becomes one line per host behind the same break, equal in every token but the address |
| SdpLines.CopiesAreLinesIff | src/bridge/mdns.ts:45-57 | the copies are lines of their own if and only if the SDP does not start with an expandable candidate or there is only one host |
| SdpLines.ExpandTwice | src/bridge/mdns.ts:44-58 | expanding an SDP twice is expanding it once, for every SDP, when no host is a `.local` name |
| SpeechText.ChunkText | src/tts.ts:66-102 | the loops terminate and compute the function of the lemmas below |
| SpeechText.ChunksFit | src/tts.ts:66-102 | for every text and every `max` of at least 1 each piece is nonempty and at most `max` long |
| SpeechText.ChunksKeepLetters | src/tts.ts:66-102 | without white space and `.`, `!`, `?` the pieces put together are the text |
| SpeechText.ChunksAreASubsequence | src/tts.ts:66-102 | apart from white space the pieces add, move and repeat nothing |
| SpeechText.SentencesAreTheTextIff | src/tts.ts:71 | the sentence pattern loses nothing if and only if no terminator stands first or behind another one's closers and spaces |
| SpeechText.ChunksKeepInkIff | src/tts.ts:66-102 | the pieces hold every character but white space if and only if the text fits one piece, has no sentence, or has no such terminator |
| SpeechText.CutIsAtTheLastSpace | src/tts.ts:86-88 | a long sentence is cut at the last space that fits, and inside a word only when there is none |
| SpeechPacking.NormalizedIsItsWords | src/tts.ts:67-68 | the normalized text is the words of the text with one space between |
| SpeechPacking.SentencesAre | src/tts.ts:71 | the matches of the sentence pattern are, in order, the sentences of the text: characters up to a terminator, then all terminators, closers and white space that follow; between two only terminators are skipped |
| SpeechPacking.ChunksArePacked | src/tts.ts:66-102 | a text that fits is one piece; of any other, sentences share a piece as long as they fit it together, a sentence that does not fit begins the next one, and one that is too long for any is cut at the last space that fits, its end beginning the next piece |
| Wav.ReadWav | src/tts.ts:105-123 | the chunk loop of the first reader |
| Wav.FindWavDataChunk | src/stt.ts:255-266 | the chunk loop of the second reader |
| Wav.ReadersAgree | src/stt.ts:255-266 | both readers select the same bytes whenever every chunk before `data` has even size |
| Wav.OddChunkBeforeData | src/stt.ts:255-266 | behind even chunks, with an odd chunk other than `fmt ` and its pad byte directly before `data`, the first reader takes that chunk and the second never does; they select the same bytes only if the payload stands elsewhere as well |
| Wav.OddChunkSeparatesReaders | src/stt.ts:255-266 | the smallest such file |
| Wav.WriteHeader | src/tts.ts:126-146 | the header written field by field into a buffer is the RIFF/WAVE header of the lemmas below |
| Wav.HeaderIs | src/tts.ts:131-146 | every field of a printed file read from its offset: sizes, tags, format, byte rate, block alignment |
| Wav.JoinWavs | src/tts.ts:126-146 | joining reads every part, takes the first one's format and concatenates the payloads; an unreadable part fails the join |
| Wav.JoinSucceedsIff | src/tts.ts:126-146 | which joins of several files succeed, and that the result reads back as the first one's format with all payloads |
| Wav.ReadsWhatWasPrinted | src/tts.ts:105-146 | reading a printed file gives back rate, channels, bits and payload, within the 32-bit fields of RIFF/WAVE |
| Wav.JoinIsAHomomorphism | src/tts.ts:105-146 | whatever the grouping of joins, the result reads back as the common format and the concatenation of all payloads |
| ClipCache.ClipStore.Store | src/tts.ts:345-360 | the insertion with its eviction loop, on the cache object |
| ClipCache.ClipStore.Lookup | src/tts.ts:342-344 | a hit returns the clip stored under the key |
| ClipCache.InsertMovesDrift | src/tts.ts:347-358 | an insertion raises counter minus real sum by exactly the size of the clip it replaces; eviction never moves it |
| ClipCache.EverySurvivorIff | src/tts.ts:347-358 | each entry, the inserted one or another, is left by an insertion if and only if the entries from its place on, with the drift after the insertion, fit 48 MB |
| ClipCache.InsertLeaves | src/tts.ts:347-358 | an insertion evicts the fewest oldest entries that make the rest fit, and keeps the order |
| ClipCache.NothingIsEvictedWithinTheBudget | src/tts.ts:347-358 | an insertion that stays within the budget evicts nothing |
| ClipCache.EveryRunIsSound | src/tts.ts:335-362 | over every interleaving of overlapping calls the counter is at least the real sum and at most 48 MB, and a hit returns a clip made for its key |
| ClipCache.DriftIsBoundedAndGrows | src/tts.ts:335-362 | over every run the drift of the counter never goes down, stays within 48 MB, and takes its room from the cached bytes |
| ClipCache.OverlapDrifts | src/tts.ts:335-362 | from an empty cache, two overlapping misses of one key leave a drift of the size of the first clip |
| ClipCache.OverlapHappens | src/tts.ts:335-362 | such runs exist |
| ClipCache.SurvivesIff | src/tts.ts:347-358 | a clip outlives its own insertion if and only if the entries from its place on, with the drift after the insertion, fit 48 MB; a clip that replaces one keeps the old place |
| ClipCache.NewestSurvivesIff | src/tts.ts:347-358 | under a key that is not stored, that is if and only if the drift leaves room for the clip alone |
| ClipCache.ReplacementIsEvicted | src/tts.ts:347-358 | under a stored key room is not enough: without any drift a replacing clip can be evicted by its own insertion |
| ClipCache.WithoutOverlapTheCounterIsExact | src/tts.ts:335-362 | if no two calls for one key overlap the counter is exact |
| ClipCache.WithoutOverlapTheNewestSurvives | src/tts.ts:335-362 | then the newest clip survives |
| ClipCache.DriftTakesRoomForGood | src/tts.ts:347-358 | once the drift has left less room than a size, no clip of that size or more is held at any later moment of the run, under any key |

## Left out

- LogNetwork.CopyIsAPrefixOfTheLog: assumes that no batch from before a same-epoch reset is accepted after it and that a clear is noticed; `LogFidelity` has the exact condition without either, `LogTroubles` the runs that fail. A tab that adopts another tab's epoch is not modelled.
- LogBatches.CutsDoNotMatter: speaks of appends without trims between them, as the growth of the copy is its subject.
- Follower.PagerReadsEveryHitOnce: for a start above 0 and a copy that grows without reset or trim; `PagerFromZeroReads` is the case of 0.
- TelegramMailbox.SplitAckLosesWhatArrived: with no other ack of the chat between the two halves; `SplitAckAmongOthers` and `InterleavedAcks` are the cases with others.
- Wav.ReadersAgree: even chunk sizes suffice; which files with odd chunks further ahead happen to agree is not characterized, as the second reader then walks on through arbitrary bytes.
- TelegramChannel.Channel.ClaimPending: is one atomic step; two claims interleaved at their awaits can both read one mailbox.
- TelegramChannel.Channel.ParkMessage: appends a whole line; an append cut off in the middle becomes a torn line of its own, not one merged with the next.
- PairingCodes.CodesAreSingleUse: takes channel ids as never drawn twice and two codes as equal when their hashes are.
- ReconnectWatch.EveryRequestIsOfferedOnce: takes the relay's feed as the complete, ascending rest of its log above the cursor, numbered from 1.
- IceExpansion.EverySentCandidateIsServed: for plain host addresses, as all of `IceExpansion`; which text is set as the description on the answering side is not modelled, only that and when it is set.
- IceAnswer.EveryCandidateIsAddedOnce: for offers whose description is accepted; a rejected one fails the session.
- IceOffer.EveryDeliveredCandidateIsAdded: whether `addIceCandidate` succeeds is ignored, as the program ignores it.
- Wav.ReadsWhatWasPrinted: the bytes of a Node buffer are numbers below 256; reading a tag masks the top bit as the ASCII decoding does.
- Row addresses and iteration numbers are integers; the JSON of contents is opaque text with its `status` field; rows that SQLite cannot store are not modelled.
- Page counts, transactions that fail half way, and the second process that reads the file while it is written.
- `bindings.json` and the loading of state after a restart; profile catalogues, environment and state directories.
- The pairing mailbox's tokens, random codes and listeners' own effects; hash comparison in constant time.
- The relay's HTTP, retries, renewals and timers; the datachannel itself and pairing phrases.
- The listing of network interfaces: hosts are any list of addresses without spaces and line breaks, at least one.
- Speech engines, audio decoding and the hash that makes a cache key; keys are their text.
- The sync engine, stores and user interface, and the statistics of the log command.
