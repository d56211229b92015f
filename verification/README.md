# A verified model of the bot SDK's loops

This project models the parts of the Bluesky bot SDK whose correctness is not visible from
reading one function, and proves what they promise. `dafny verify dfyconfig.toml` checks it.

| file | what it models |
|---|---|
| `Splitter.dfy`, `SplitterLaws.dfy` | the greedy word wrapper that cuts a text into posts |
| `Numbering.dfy`, `NumberingLaws.dfy` | the fixed-point loop that makes room for ` i/N` tags |
| `NumberingRounds.dfy`, `NumberingLimits.dfy` | eight rounds are enough at any limit; which texts and limits leave room for the tags |
| `PlanLaws.dfy` | what a plan is made of, numbered or not |
| `ThreadChain.dfy` | the reply chain that a thread is published as |
| `Dedup.dfy` | the notification watermark and whole runs of polls |
| `CrashMachine.dfy` | the polling loop as a machine that can crash between any two steps |
| `NotificationLoop.dfy` | the bot that follows this machine, through lives that end in crashes |
| `DirectMessages.dfy` | priming and draining the conversation log while handlers append to it |
| `RateLimit.dfy` | the token bucket and `acquire` |
| `Jetstream.dfy`, `StreamRunner.dfy` | resuming the event stream after disconnects |
| `GapFreeResume.dfy` | which event logs are always handled as one interval |
| `Hashtags.dfy` | the hashtag scanner |
| `Entities.dfy`, `ContentName.dfy` | HTML entity decoding; FNV-1a file names |
| `Command.dfy` | the command parser |
| `Pagination.dfy` | the paging streams |
| `Numerals.dfy`, `Wrappers.dfy` | powers; optional values and results |

Code that works by changing variables is written as methods and classes with the same state,
each proved against a specification function; the laws are then proved about those functions.

## How the outside world appears

- A text is a sequence of extended grapheme clusters (section 3 of UAX #29), each blank or inked.
  Trimming works on whole clusters: no cluster is assumed to mix whitespace with other
  characters at its ends, and cutting between clusters is assumed not to change them.
- Unicode tables (whitespace, alphanumeric, lower-casing) are function parameters. What is used of
  them: `' '` is whitespace, `'@'` and `'x'` are not, `'#'` is not alphanumeric.
- The network answers freely: a fetch, a save or a request may fail, and others may write to the
  conversation log at any time. Outcomes are parameters or unconstrained choices.
- The notification server is assumed to serve again whatever it served before and the present
  watermark does not cover. One more assumption is made of a life that did not resume from the
  store: what its polls take for news is not news that the store already covers. From any state
  that satisfies the invariant, a poll is safe if and only if this holds
  (`PollIsSafeIffNoLateNews`), and without it the loss happens (`LateNewsCanBeLost`).
- The conversation log serves contiguous slices, empty only at its end, with a cursor just past
  them. The event stream replays from the first event not older than the cursor.
- Points and times are real numbers; the clock does not run back and a sleep lasts at least as
  long as asked for. A turn of `acquire` is atomic, as it holds the lock.

## Where the code and its description part

- A numbered thread that fits in one post can still be split: the first round already sets room
  aside for `1/1`. It stays whole exactly when its one inked piece, trimmed, leaves that room,
  `UntaggedIffOneNarrowPiece`; 297 clusters at the limit of 300 do not, `FittingTextIsSplit`
  (src/thread.rs:98-99 promises only that a single-post thread is left alone).
- For tiny limits the posts do not fit: `TinyLimitOverflows`, with the exact condition on texts and
  limit in `NumberedThreadFitsIff`. For the limit of 300 that `send` uses they always do.
- A rolling hour can see twice the hourly points, `TwiceTheBudgetInOneHour`: it stays within them,
  whatever the callers do, exactly when the bucket is empty as the hour begins,
  `HourWithinBudgetIffEmpty` (src/ratelimit.rs:4-9 speaks of a rolling budget).
- A budget below the cost of one operation makes `acquire` wait forever, `TwoPointsNeverCreate`,
  with the exact condition in `AcquireReturnsIff` (src/ratelimit.rs:270-273 promises to wait until
  the budget allows the write).
- A page that lists a notification twice has it dispatched twice, as the filter runs before the
  batch is marked: `ListedTwiceIsDispatchedTwice`, with the exact condition in
  `AtMostOnceIffBatchesHaveNoRepeats`.
- A replay that begins before the first handled event and is cut off leaves a gap until a later
  replay closes it: `CutOffReplayLeavesAGap`. Which logs are handled as one interval at every
  moment of every run is settled by `OneIntervalIffReplaysStayClose`, and for a start at the live
  end by `LiveStreamOneIntervalIff`. Nothing after the first handled event is ever missed.
- With mentions stripped and `@` as prefix, a printed command reads as a mention:
  `RoundTripsIffPrefixIsNotAMention`.

## Model

| member | source | states |
|---|---|---|
| Splitter.SplitIntoChunks | src/thread.rs:280-332 | the wrapper with its two inner scans yields the chunks of the cutting rule that the laws below are about |
| Splitter.FindBreak | src/thread.rs:305-317 | the backward scan finds the last whitespace of the window, if there is one |
| Splitter.PushChunk | src/thread.rs:335-341 | what is pushed is the range without the blanks at its ends, so it starts and ends with ink; nothing is pushed when there is no ink |
| Splitter.TrimSliceIsTheTrim | src/thread.rs:336-338 | a range has exactly one such trimmed form |
| SplitterLaws.SplitIsFaithful | src/thread.rs:276-332 | from any start the text is blanks and chunks in turn: chunks are ordered, disjoint, non-empty, trimmed, at most `limit` long, and leave out only whitespace |
| SplitterLaws.SplitKeepsEveryInk | src/thread.rs:276-332 | the chunk texts joined hold exactly the non-whitespace clusters of the text, in order |
| SplitterLaws.ShortTokensStayWhole | src/thread.rs:17-22 | every whitespace-delimited token of at most `limit` clusters lies whole in one chunk |
| SplitterLaws.AdvanceIsMonotone | src/thread.rs:302-328 | a later start and a larger limit never give an earlier cut, hard splits included |
| SplitterLaws.RaisingTheLimitNeverAddsChunks | src/thread.rs:280-332 | for every text the number of chunks does not grow with the limit |
| SplitterLaws.NoWordCuttingIsShorter | src/thread.rs:302-328 | no cutting at whitespace into pieces of at most `limit` has fewer pieces than the greedy one |
| SplitterLaws.GreedyIsShortestIffTokensFit | src/thread.rs:276-332 | the greedy split cuts no token if and only if every token fits, and is then a shortest such cutting |
| SplitterLaws.HalvingTheLimitQuadruplesAtMost | src/thread.rs:302-328 | with half the limit there are at most four times as many chunks |
| SplitterLaws.NoMoreChunksThanInk | src/thread.rs:335-341 | every chunk uses up a visible cluster of its own |
| Numbering.PlanSegments | src/thread.rs:217-259 | the eight-round loop with its early exit computes the plan that the laws below are about |
| PlanLaws.PlanCutsThePieces | src/thread.rs:217-259 | numbered or not, the posts of a plan, tags aside, are ranges of the pieces in order: each within one piece, trimmed, with room for its tag, none cutting a token that fits, leaving out nothing but blanks |
| PlanLaws.PlanIsShortest | src/thread.rs:217-259 | numbered or not, no cutting of the pieces at whitespace, with room for the tags of as many posts as it makes, makes fewer posts than the plan, whatever the limit |
| PlanLaws.PlanKeepsEveryInk | src/thread.rs:214-259 | numbered or not, the posts, tags aside, hold exactly the visible text of all pieces, in order |
| Numbering.SplitPieces | src/thread.rs:218-224 | all pieces are split to the limit less the reserve, at least one cluster, and never merged |
| NumberingLaws.RecountMonotone | src/thread.rs:230-232 | setting aside room for more posts never yields fewer posts |
| NumberingLaws.LoopSettles | src/thread.rs:238-247 | with at most `width` digits to go through, the loop reproduces its count within the rounds it has |
| NumberingLaws.ThreeRoundsSuffice | src/thread.rs:230-247 | when the widest possible suffix takes at most half a post, the loop is stable by its third round |
| NumberingRounds.EightRoundsSuffice | src/thread.rs:230-247 | for every limit and any text a 64-bit size can index, the loop is stable by its last round |
| NumberingLimits.UntaggedIffOneNarrowPiece | src/thread.rs:249-253 | a numbered thread is a single untagged post if and only if exactly one piece has ink and its trimmed width is at most the limit less four, or one cluster where that is less; it is empty if and only if none has |
| NumberingLimits.OnePostIffOneNarrowPiece | src/thread.rs:217-228 | texts are split into one post if and only if one piece has ink and its trimmed width is within the budget |
| NumberingLimits.FittingTextIsSplit | src/thread.rs:96-99 | 297 clusters are one post without numbering and several with it |
| NumberingLimits.NumberedThreadFitsIff | src/thread.rs:96-99 | all posts of a numbered thread fit if and only if there is no ink, or one inked piece of such a width, or a number of digits whose tags leave room and which is enough for the posts those tags make |
| NumberingLimits.TinyLimitOverflows | src/thread.rs:226-228 | two visible clusters at a limit of four overflow |
| NumberingLaws.NumberedThreadFits | src/thread.rs:45-49 | for the limit of 300 and any text a 64-bit size can index: every numbered post fits and the loop settles in three rounds |
| NumberingLaws.PostReadsBack | src/thread.rs:254-269 | in a plan of several posts, post `k` is the `k`-th chunk and a tag that reads as `k + 1` and as the number of posts in the plan |
| NumberingLaws.TagReadsBack | src/thread.rs:254-269 | a tag is a space, a number, a slash and a number that read back as position and total |
| NumberingLaws.PlanIsNumbered | src/thread.rs:249-258 | a plan of several posts is the settled split with its tags |
| NumberingLaws.NumberedThreadKeepsEveryInk | src/thread.rs:214-259 | tags aside, the posts hold exactly the visible text of all pieces, in order |
| NumberingLaws.UnnumberedThreadFits | src/thread.rs:226-228 | without numbering every post fits any limit of at least one |
| ThreadChain.Send | src/thread.rs:153-199 | on success the whole plan is posted as one chain, each post answering the one before and sharing one root; a failure means that there was nothing to say, or that one request was refused, and leaves a chained proper prefix |
| Dedup.Dedup.MarkOne | src/dedup.rs:58-78 | one mark updates the watermark as the laws below require |
| Dedup.Dedup.Prime | src/dedup.rs:83-87 | priming marks every notification |
| Dedup.Dedup.TakeNewSorted | src/dedup.rs:92-99 | the batch that the laws below are about, for the watermark as it was, comes back and is marked |
| Dedup.Dedup.ToJson | src/dedup.rs:103-109 | reading back what is saved gives the same watermark, whatever order the URIs are listed in |
| Dedup.Dedup.FromJson | src/dedup.rs:112-118 | the restored watermark is the saved instant with the saved URIs as a set |
| DedupLaws.MarkingSummarizes | src/dedup.rs:58-87 | after any marks the state is the newest instant of the whole history and the URIs at that instant |
| DedupLaws.SummaryIsUnique | src/dedup.rs:33-37 | a history has only one such summary |
| DedupLaws.MarkingIgnoresOrder | src/dedup.rs:58-87 | marking the same notifications in any order, with any repetitions, gives the same watermark |
| DedupLaws.IsNewConsultsTheHistory | src/dedup.rs:46-55 | a notification is new if and only if it is not in the history and nothing in the history is newer |
| DedupLaws.SortSorts | src/dedup.rs:94 | the batch is sorted by time and holds the same notifications |
| DedupLaws.SortIsStable | src/dedup.rs:94 | notifications of one instant keep the server's order |
| DedupLaws.BatchMembers | src/dedup.rs:92-98 | a batch holds exactly the fetched notifications that are new |
| DedupLaws.BatchIsPageInOrder | src/dedup.rs:92-98 | a batch is the page read at exactly the positions that hold news, each once, earlier instants first and within one instant in page order |
| DedupLaws.OneBatch | src/dedup.rs:92-98 | and it is the only such reading |
| DedupLaws.DispatchIsChronological | src/bot.rs:1176-1183 | the dispatch log of any run of polls is non-decreasing in time |
| DedupLaws.AtMostOnceIffBatchesHaveNoRepeats | src/bot.rs:1176-1183 | no notification is dispatched twice over any run of polls if and only if no batch repeats one that is news |
| DedupLaws.ListedTwiceIsDispatchedTwice | src/dedup.rs:92-99 | a page that lists one notification twice has it dispatched twice |
| CrashMachine.StepKeepsInv | src/bot.rs:1114-1196 | every step keeps the invariant: start, poll, dispatch, save that succeeds or fails, crash |
| CrashMachine.RunKeepsInv | src/bot.rs:1114-1236 | so does every run |
| CrashMachine.StoreNeverLosesAny | src/bot.rs:1171-1195 | over any run the stored watermark covers no notification ever fetched as news that was neither dispatched nor skipped by priming |
| CrashMachine.PollIsSafeIffNoLateNews | src/bot.rs:1176-1193 | a poll keeps that if and only if no news in the batch is already covered by the store |
| CrashMachine.LateNewsCanBeLost | src/bot.rs:1120-1142 | a run with an unreadable store and a late arrival after which a crash would lose it |
| CrashMachine.EveryBatchSettlesAllDebts | src/bot.rs:1181-1193 | at the end of every batch everything ever fetched as news is dispatched or skipped |
| CrashMachine.RepeatsWereNeverSaved | src/bot.rs:1120-1126 | in a life that resumed from the store, whatever is dispatched again was dispatched after the last successful save |
| NotificationLoop.Bot.RestoreWatermark | src/bot.rs:1204-1220 | a stored value that can be read comes back as it was saved; otherwise nothing |
| NotificationLoop.Bot.PersistWatermark | src/bot.rs:1224-1236 | a save that succeeds leaves the present watermark in the store, one that fails leaves the store as it was |
| NotificationLoop.Bot.PollAndDispatch | src/bot.rs:1176-1196 | one poll is a poll step, one dispatch step per new notification in order, then a save step if there was any; a failed fetch changes nothing |
| NotificationLoop.Bot.Start | src/bot.rs:1118-1142 | restore, or prime past the backlog and save, or begin with nothing: the machine steps taken, the state they lead to, and nothing dispatched |
| NotificationLoop.Bot.PollEachTick | src/bot.rs:1154-1168 | the ticks take exactly the machine steps of their polls, in turn, and dispatch what de-duplication lets through |
| NotificationLoop.Bot.RunNotificationLoop | src/bot.rs:1114-1169 | a whole life takes exactly the machine steps that its starting store and the server's answers call for, and dispatches what the polls yield from the starting watermark |
| NotificationLoop.Bot.CrashAt | src/bot.rs:1176-1193 | a crash between polls, or in a poll after any part of the batch, loses the rest of the batch and the watermark in memory, and leaves the store |
| NotificationLoop.Bot.RunLives | src/bot.rs:1114-1236 | one life after the other, each cut short by a crash, takes exactly the machine steps of all of them |
| NotificationLoop.Bot.RunLivesSafely | src/bot.rs:1114-1236 | and the bot satisfies the crash invariant at the end if the server kept its side |
| NotificationLoop.LifeRuns | src/bot.rs:1114-1169 | a life whose fetched pages hold what is still owed takes a run of the machine |
| NotificationLoop.LoopDispatches | src/bot.rs:1154-1183 | what the loop dispatches is what de-duplication lets through of the pages fetched |
| NotificationLoop.ServedLivesKeepInv | src/bot.rs:1114-1236 | crash safety from the server's answers alone, through any number of lives that crash at any point |
| NotificationLoop.RestartIsInvisible | src/bot.rs:1120-1126 | where every save succeeded, a crash between polls and a restart that reads the store lead to the same world as one uninterrupted life |
| NotificationLoop.StartDecidesTheBacklog | src/bot.rs:1120-1142 | resumed, news is what the stored watermark does not cover; primed, nothing of the first page is ever dispatched; otherwise everything is news |
| DirectMessages.DmRunner.Prime | src/dm.rs:391-437 | priming dispatches nothing and ends just past the pages it was served; how it ends is how its requests were answered: refused, an empty page at the live tail, a stop, or 10,000 full pages; with the backlog wanted it asks nothing and starts at the beginning |
| DirectMessages.DmRunner.Poll | src/dm.rs:441-466 | a poll goes on from page to page until a request is refused, a page is empty (then it is at the live tail), a stop is noticed, or 10,000 full pages are read, and dispatches exactly the foreign live messages of the pages it was served |
| DirectMessages.DmRunner.Run | src/dm.rs:353-385 | over any run with failing fetches and concurrent writers every tick is one whole poll, and the dispatched messages are those between the primed cursor and the current one |
| DirectMessages.ForeignPositions | src/dm.rs:166-189 | the positions that are dispatched are all those of creation entries with a live message that the bot did not send |
| DirectMessages.PositionsIncrease | src/dm.rs:184-188 | they increase, so no entry is dispatched twice |
| DirectMessages.DispatchedOnceInOrder | src/dm.rs:166-189 | message `k` that is dispatched has the conversation, sender and text of the entry at position `k` of these |
| DirectMessages.DmRunner.PollQuietly | src/dm.rs:441-466 | where only the bot writes, at most `replies` messages per handler call, the drain ends without its page cap, within one page per unit of unread weight, having dispatched just what was foreign at the start |
| DirectMessages.ReadThenReplies | src/dm.rs:450-464 | reading a page and appending its replies lowers the unread weight by at least the length of the page |
| DirectMessages.EchoStopsIffOwnAreSkipped | src/dm.rs:177-179 | an echo bot's conversation with itself ends if and only if its own DID is filtered out |
| RateLimit.Bucket.RefillAt | src/ratelimit.rs:221-227 | refill adds what accrued since the last one, up to the capacity |
| RateLimit.Bucket.Configured | src/ratelimit.rs:265-268 | a configured limiter begins as the bucket that the laws below are about |
| RateLimit.Bucket.TakeOrWait | src/ratelimit.rs:231-240 | the cost is taken or the wait reported |
| RateLimit.Bucket.Acquire | src/ratelimit.rs:274-289 | a lone caller returns after at most `SleepsNeeded` sleeps, each between 0.01 and 3600 seconds, at once if none is needed, and the bucket ends as after one successful turn at that time |
| RateLimit.AttemptKeepsValid | src/ratelimit.rs:221-241 | tokens stay between zero and the capacity |
| RateLimit.RefillIsPathIndependent | src/ratelimit.rs:221-227 | refilling on the way makes no difference |
| RateLimit.SucceedsIff | src/ratelimit.rs:221-234 | a turn succeeds if and only if the cost is within the tokens left and those accrued since, and within the capacity |
| RateLimit.AllServedIffTokensSuffice | src/ratelimit.rs:231-234 | of callers at one moment all are served if and only if their costs together are within the tokens there are |
| RateLimit.ConfiguredBudgetServesIff | src/ratelimit.rs:265-289 | a configured budget serves a cost at once, or ever, if and only if it is within the hourly points, or within one point if there are none |
| RateLimit.WaitIsExact | src/ratelimit.rs:229-237 | the reported wait is the least time after which the cost can be taken |
| RateLimit.PauseIsNearest | src/ratelimit.rs:284-286 | the pause is the time between 0.01 and 3600 seconds nearest to the wait |
| RateLimit.OneSleepHelps | src/ratelimit.rs:284-287 | each sleep lowers the number of sleeps still needed |
| RateLimit.WindowBound | src/ratelimit.rs:219-290 | for every interleaving of callers and every window, at most the capacity plus the refill of the window is granted |
| RateLimit.HourlyBudgetAtMostTwice | src/ratelimit.rs:265-268 | a configured budget grants at most twice its points, or twice one point if it has none, in any hour |
| RateLimit.TwiceTheBudgetInOneHour | src/ratelimit.rs:265-268 | that bound is reached |
| RateLimit.NextHourWithinBudgetIffEmpty | src/ratelimit.rs:4-9 | the coming hour grants at most the hourly points in every interleaving if and only if the bucket is empty now |
| RateLimit.HourWithinBudgetIffEmpty | src/ratelimit.rs:219-290 | an hour that begins at a given time does so if and only if the bucket is empty now and that time is now |
| RateLimit.OneSleepWithinHourlyBudget | src/ratelimit.rs:265-289 | with a configured budget, whatever the turns before, a cost within the hourly points is served after one pause at the latest |
| RateLimit.AcquireReturnsIff | src/ratelimit.rs:270-290 | a caller can be served at some time if and only if the cost is within the capacity, or without refill within the tokens there are |
| RateLimit.TooSmallABudgetNeverServes | src/ratelimit.rs:265-290 | costs above the capacity are never granted in any interleaving |
| RateLimit.TwoPointsNeverCreate | src/ratelimit.rs:265-290 | with two points an hour a record, which costs three, is never created |
| Jetstream.ReplaysTheRewindWindow | src/stream.rs:652-660 | a reconnect replays exactly the events within the rewind of the cursor and later |
| Jetstream.ResumesAtOrBeforeLast | src/stream.rs:652-660 | a reconnect starts at or before the event handled last |
| Jetstream.StepKeepsInv | src/stream.rs:682-793 | connecting, receiving and disconnecting at any point keep the invariant, during replays too |
| Jetstream.NothingAfterFirstIsMissed | src/stream.rs:682-720 | over any sequence of connections no event that parses is missed between the first handled and the furthest received |
| Jetstream.CaughtUpMeansOneInterval | src/stream.rs:682-720 | once the connection has caught up with the first handled event, the handled events are one interval |
| GapFreeResume.OneIntervalIffReplaysStayClose | src/stream.rs:652-720 | the handled events are one interval after every step of every run, from any start, if and only if no replay can begin two events that parse below the lowest handled one; the condition names only the log, the rewind and the start |
| GapFreeResume.LiveStreamOneIntervalIff | src/stream.rs:652-720 | for a start at the live end: if and only if no three events that parse lie within one rewind |
| GapFreeResume.RunStaysClose | src/stream.rs:682-720 | where the condition holds, every run keeps the stronger invariant that implies one interval |
| GapFreeResume.FarReplayLeavesGap | src/stream.rs:652-720 | where it fails, some run leaves a gap |
| Jetstream.CutOffReplayLeavesAGap | src/stream.rs:652-720 | a run that leaves a gap for the time being |
| StreamRunner.Runner.HandleText | src/stream.rs:783-793 | one event is one receive step: it is handed over once and becomes the cursor if it parses, and changes neither otherwise |
| StreamRunner.Runner.ConnectAndStream | src/stream.rs:727-780 | a connection that comes up is a connect step, a receive step for each event that arrives, and a disconnect step; it hands over what parses of them, in order, and the upper end never decreases |
| StreamRunner.HandedMembers | src/stream.rs:727-793 | what a session hands over are the events that arrive from the live end, or from the rewound cursor on, and parse |
| StreamRunner.ParsingIncreases | src/stream.rs:783-793 | each once, in log order |
| StreamRunner.CursorIsLastParsing | src/stream.rs:783-788 | the cursor is the time of the last one that parsed |
| StreamRunner.Runner.Run | src/stream.rs:671-723 | every session takes up at the cursor left by the one before; the invariant, the first handled event and the upper end are kept |
| StreamRunner.EverySessionCounts | src/stream.rs:682-720 | no session of a run is skipped: what it hands over follows what those before it did |
| Hashtags.ScanHashtags | src/stream.rs:336-356 | jumping to the end of each run finds the same tags as looking at every position |
| Hashtags.StartsAreAll | src/stream.rs:333-341 | tags start at exactly the `#` that no alphanumeric precedes and an alphanumeric or underscore follows |
| Hashtags.TagsInOrder | src/stream.rs:342-349 | tag `k` is the lowercased run after the `k`-th start |
| Hashtags.StartsIncrease | src/stream.rs:340-354 | the starts increase |
| Hashtags.RunIsMaximal | src/stream.rs:343-346 | the run is all alphanumerics and underscores and cannot be longer |
| Entities.DecodeEntities | src/embed.rs:638-687 | the loop computes the decoding that the laws below are about, and ends |
| Entities.DecodeAt | src/embed.rs:646-683 | the decision at an ampersand makes progress and agrees with the decoding |
| Entities.DecodingInvertsEscaping | src/embed.rs:638-687 | any mix of characters as they are, their names, and their code points in decimal or hexadecimal digits of either case decodes to those characters |
| Entities.AmpersandDecodesIff | src/embed.rs:646-683 | an ampersand decodes if and only if one of these spellings begins there, and then to that character; otherwise it stays |
| Entities.UnknownEntityStays | src/embed.rs:666-677 | an entity that is none of them is left as it stands |
| Entities.EveryCharacterHasReferences | src/embed.rs:658-665 | every character has a decimal and a hexadecimal reference, in small letters and capitals, that is among these |
| Entities.DecodingNeverLengthens | src/embed.rs:642 | the output fits in as many UTF-8 bytes as the input |
| Entities.TextWithoutSemicolonIsUnchanged | src/embed.rs:679-682 | a text in which no entity ends is left alone |
| ContentName.NameOf | src/embed.rs:848-855 | the loop computes the 64-bit FNV-1a hash and its sixteen digits |
| ContentName.XorBits | src/embed.rs:850 | a bit of the exclusive or is set if and only if it is set in just one of the two |
| ContentName.StepOnClearByte | src/embed.rs:850-851 | the byte is taken in before the multiplication by the prime 0x100000001b3, modulo 2^64 |
| ContentName.NoBytesHashToTheBasis | src/embed.rs:848 | the hash begins at the offset basis 0xcbf29ce484222325 |
| ContentName.NameReadsAsHash | src/embed.rs:854 | a name is sixteen small hexadecimal digits that read as the hash, and `.mp4` |
| ContentName.StepInjective | src/embed.rs:850-853 | one step sends different states, or different bytes, to different states |
| ContentName.HexInjective | src/embed.rs:854 | the digits tell all 64-bit numbers apart |
| ContentName.OneByteChangesTheHash | src/embed.rs:849-853 | two byte strings that differ in exactly one byte have different hashes |
| ContentName.OneByteChangesTheName | src/embed.rs:846-855 | two byte strings that differ in exactly one byte never get the same name |
| ContentName.SameNameIffSameState | src/embed.rs:846-855 | with the same bytes around them, two middles share a name if and only if they lead to the same state |
| Command.ParseCommand | src/command.rs:71-99 | the parser with its mention loop computes the parse that the laws below are about, and ends |
| Command.ParseInvertsPrint | src/command.rs:62-99 | printing mentions, prefix, name and rest, and parsing, gives the same name, words and rest |
| Command.ParseReads | src/command.rs:62-99 | however a command is written (whitespace, mentions, prefix, name, rest, with any whitespace between), it parses to its name, its rest and the words of its rest |
| Command.ParsedIsWritten | src/command.rs:71-99 | every text that parses is written in one of these ways |
| Command.SplitFindsWords | src/command.rs:96 | words with any whitespace around them split into the same words |
| Command.EveryTextIsSpaced | src/command.rs:96 | every text is its words with whitespace around them |
| Command.StripMentionsResult | src/command.rs:74-83 | after the mention loop the text starts with no mention |
| Command.RoundTripsIffPrefixIsNotAMention | src/command.rs:71-99 | parsing, printing and parsing again gives the same command for every text if and only if mentions are kept or the prefix is not a lone `@` |
| Pagination.Paginated.GetNext | src/read.rs:52-74 | items come in page order, at most one request per call, and after `n` items exactly the least number of pages that hold `n` has been fetched; the stream ends at the first error, empty page or page without cursor |
| Pagination.ReachedIff | src/read.rs:41-74 | a request is due if and only if every page before it had items and a cursor, and is sent with the cursor of the page before, the first with none |
| Pagination.ItemsAt | src/read.rs:52-74 | each item of each page has its place among the items, after those of the pages before |
| Pagination.LeastPagesUnique | src/read.rs:37-40 | there is only one such number |
| Pagination.Paginated.CollectAll | src/read.rs:126-132 | all items of all pages that were not yielded before, or the first error |
| Pagination.Taken.GetNext | src/read.rs:134-140 | after `n` items the stream is not asked again |
| Pagination.Taken.ReadAll | src/read.rs:134-140 | `take(n)` yields the next `n` items, from exactly the pages that hold what was yielded so far, or all there are |

## Left out

- NumberingLaws.NumberedThreadFits: assumes that the visible clusters of all pieces number below 2^64, which a size in the source cannot exceed.
- RateLimit.Bucket.Acquire: is stated for a lone caller with a cost within the capacity; `AcquireReturnsIff` shows that a larger cost is never served. Fairness between callers is not modelled.
- CrashMachine.StoreNeverLosesAny: rests on the two assumptions about the server named above; more news than a page holds is excluded by the first.
- DirectMessages.DmRunner.PollQuietly: models the drain without its cap of 10,000 pages, and nobody but the bot writes during it.
- Pagination.Paginated.CollectAll: assumes a list that ends, as its documentation asks; an endless feed would be read forever.
- NumberingRounds.EightRoundsSuffice: assumes the same, at every limit.
- PlanLaws.PlanCutsThePieces: assumes the same for a numbered plan.
- NumberingLimits.NumberedThreadFitsIff: assumes the same, as it rests on a loop that has settled.
- Jetstream.NothingAfterFirstIsMissed: assumes that the server still holds the events a cursor asks for.
- A cluster that mixes whitespace with other characters at its ends, and text whose clusters change when a tag is appended.
- Rounding of floating-point points, and wall-clock jitter.
- Network calls, WebSocket framing, JSON, login and file storage; the store is one optional saved watermark.
- Delays between reconnects and poll intervals: they decide when steps happen, not which.
- Scheduling, configuration, event accessors, self-labels, media upload, link previews and rich-text facets: wrappers around library calls.
- Command routing after the parse, and the notification filter by reason.
