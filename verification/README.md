# Verified models of the VassilFlow channel runtime

This project models the stateful parts of VassilFlow that carry messages between chat platforms and
the agent gateway, and proves what they keep over every run: how the channel manager deduplicates
messages, creates one thread per conversation, streams answers and shuts down; the gateway's
capability-readiness cache; the Feishu, Telegram, Discord and WeChat channels' own protocols; the
service that keeps channels running; and three supporting refinements (the conversation store, the
`.env` file, the migration to per-user directories).

Concurrent code appears as a transition system. `State` has the tables and, for each call, where it
stands; `Action` has the steps, one for everything that happens between two `await`s or under one
lock; `Runs` and `After` say what any interleaving of them does. What the network, a chat platform
or a clock decides is a parameter of the action, so a theorem about all runs covers every mix of
outcomes. Where an object's methods change its tables within one step, the step is also a class
method with the source's loops, proved equal to the function the transition system uses.

Modules, by component:

| component | modules |
|---|---|
| thread creation | `ThreadRouting`, `ThreadCreation`, `ThreadOwners` (over `ConversationStore`) |
| inbound dedupe | `DedupeTable` |
| readiness cache | `CapabilityReadiness` (over `RecencyLists`) |
| streaming answers | `StreamMerge`, `StreamPublish` (over `Texts`) |
| start, stop, drain | `Shutdown`, `ChannelLifecycle`, `ChannelDoubling` |
| Feishu | `FeishuBatches`, `FeishuCards` |
| Telegram | `TelegramStream`, `TextSplit` (over `RecencyLists`, `Texts`) |
| Discord | `TextSplit`, `DiscordThreads` |
| WeChat | `TextCodecs`, `WechatKeys`, `WechatCipher` |
| supporting | `ConversationStore`, `EnvFile`, `Migration`, `Options` |

## Promises the code keeps only under a condition

Each of these is stated with its exact condition and with an input or a run for which it fails.

* **One thread per conversation** (manager.py:1266-1289). The `finally` clause drops the lock-table
  entry although others may still wait on that lock. `ThreadCreation.Safe` is the exact condition on
  a state; one cancelled waiter is enough to break it (`OneCancelDoubles`). A message with a
  connection but no owner is stored elsewhere than looked up (`MissingOwnerDoubles`).
* **One dispatch loop** (manager.py:942-981). `start` waits for a shutdown under way but then looks at
  the running flag only. Two live loops can follow, at once or after a further shutdown and start, if
  and only if it resumes while a newer shutdown waits for its loop (`OneLoop`,
  `TwoLoopsIffOvertaking`; `LateStartRun`, `LoopSurvives`, `LateStartEscapesStop`). If it resumes while
  a newer shutdown waits for its loop or for handlers, that shutdown ends with a loop live, and
  otherwise it finds everything ended (`DrainsIffNotLate`).
* **Stopping the service leaves nothing running** (service.py:175-232). A call to
  `ensure_channel_ready` that passed the running check registers its channel after the snapshot that
  `stop` closes; the registry is then emptied (`StopEscapesIff`; `BusyEscapes`).
* **One instance per channel** (service.py:175-232, 310-342). A channel comes to run twice only
  through one of four steps, and can through each of them: a start that raises while its instance runs, as Telegram's may,
  which sets its running flag before it builds the application (telegram.py:76-80); a close that fails
  to stop a running instance which no other stop is going to close; a stop of the service while a call
  is inside `ensure_channel_ready`; or a start of the service during a stop (`NeverTwice`,
  `DoublesIff`; `RaisingDoubles`, `FailedCloseDoubles`, `BusyStopDoubles`,
  `EarlyStartDoubles`).
* **Telegram's cache of the shown text** (telegram.py:139-194) is wrong exactly while the last edit
  that counted reported an error after having been carried out and its replacement could not be sent.
  A final text whose first chunk is the one still tracked is then never shown, because its edit is
  skipped (`AgreesUnlessLost`, `FinalAfterRun`; `LostEditHidesFinal`).
* **Discord's reverse index** (discord.py:134-140) forgets a thread that a second channel still maps
  to (`RecordKeepsExactIff`). Threads being recorded are new ones, so two channels can share one only
  through the mapping file read at the start (discord.py:116-132; `SharedThreadForgotten`).
* **Folding deltas** (manager.py:351-363) gives their concatenation exactly if no delta is a suffix or
  an extension of the concatenation of those before it (`DeltasConcatenateIff`; `RepeatedDeltaIsLost`).
* **Conversation keys** (store.py:75-79, 139-153) are inverted by the listing exactly if channel and
  chat have no colon and the topic is not empty (`ListingInvertsKeyIff`; `ColonCollision`).
* **The migration report** (migrate_user_isolation.py:54-60) names the place of a conflicting directory
  exactly if nothing was there before; otherwise the directory lands one level deeper
  (`ReportIsTrueIff`; `TakenConflictMisreports`).
* **`.env` values** (writer.py:37-78) read back exactly if keys and values are stripped and on one
  line, and keys have no `=` and do not start with `#` (`ReadAfterWriteIff`; `UnstrippedValueIsLost`).

## Model

| member | source | states |
|---|---|---|
| ThreadRouting.StoredWhereReadIff | backend/app/channels/manager.py:1206-1232 | a created thread is stored where the next lookup reads exactly unless a connection comes without an owner |
| ThreadRouting.RoutedIsCoherent | backend/app/channels/manager.py:1261-1264 | messages share a creation lock exactly if they look up the same mapping |
| ThreadCreation.AtMostOneThread | backend/app/channels/manager.py:1266-1289 | for any coherent set of routes, in every interleaving without failures inside the region: at most one thread per conversation, all answers agree, a stored thread is never replaced, and once calls settle exactly one reports the creation if there was no thread before |
| ThreadCreation.RoutedMessagesGetOneThread | backend/app/channels/manager.py:1206-1289 | that holds for all messages with an owner to every connection and unambiguous store keys |
| ThreadCreation.NoLockLeaks | backend/app/channels/manager.py:1276-1289 | with or without failures, every lock-table entry is referenced by a live call, so a quiet manager has none |
| ThreadCreation.OnlyOwnLockDropped | backend/app/channels/manager.py:1287-1289 | an entry leaves the lock table exactly when a call that came in by that very lock leaves the region or fails in it |
| ThreadCreation.StoredIsAnswered | backend/app/channels/manager.py:1272-1274 | a message of a conversation with a thread is answered with it at once, without any lock |
| ThreadCreation.TwoThreadsIffUnsafe | backend/app/channels/manager.py:1266-1289 | from any reachable state a failure-free continuation creates two threads exactly if the state is not `Safe` |
| ThreadCreation.AbortSafeIff | backend/app/channels/manager.py:1287-1289 | an exception or cancellation in the region keeps safety exactly if the thread is stored already, or nobody else is inside and no thread was made |
| ThreadCreation.OneCancelDoubles | backend/app/channels/manager.py:1287-1289 | the failing run: one cancelled waiter, then two threads |
| ThreadOwners.MissingOwnerDoubles | backend/app/channels/manager.py:1206-1232 | the failing run: two undisturbed calls with a connection and no owner create two threads |
| ThreadCreation.ReachableInv | backend/app/channels/manager.py:1266-1289 | the invariant behind the exact conditions holds after every run of routed calls, whatever fails |
| DedupeTable.ReplayOrdered | backend/app/channels/manager.py:1042-1081 | with a non-decreasing clock the table stays in chronological order |
| DedupeTable.UnexpiredIsSuffix | backend/app/channels/manager.py:1048-1055 | popping expired entries from the front removes exactly the expired ones |
| DedupeTable.TrimKeeps | backend/app/channels/manager.py:1048-1057 | the two trimming loops keep exactly the unexpired among the newest 4096 |
| DedupeTable.ReplayBounded | backend/app/channels/manager.py:1048-1068 | never more than 4097 entries, whatever the clock does |
| DedupeTable.DuplicateMeaning | backend/app/channels/manager.py:1042-1081 | "duplicate" is answered only for a key accepted within the TTL and not released since, and always then if fewer than 4096 were accepted after it |
| DedupeTable.RememberedIff | backend/app/channels/manager.py:1042-1081 | without releases a key is remembered exactly while unexpired and fewer than 4096 were accepted after it |
| DedupeTable.StandingIsRemembered | backend/app/channels/manager.py:1042-1081 | for whole histories, releases included: the last unreleased acceptance of a key is remembered exactly while unexpired and never pushed out by 4096 newer unreleased entries |
| DedupeTable.DuplicateIff | backend/app/channels/manager.py:1042-1081 | "duplicate" is answered exactly if the key has such an acceptance, for every history, key and time |
| DedupeTable.InboundDedupe.IsDuplicate | backend/app/channels/manager.py:1042-1069 | the method's answer and new table are those of the functions above |
| DedupeTable.InboundDedupe.Release | backend/app/channels/manager.py:1071-1081 | releasing removes that key's entry and nothing else |
| CapabilityReadiness.SingleFlight | backend/app/gateway/capability_readiness.py:108-183 | at most one probe per key, at most 128 in flight and 128 cached, no key both in flight and cached, and a key is in flight exactly while some call probes it |
| CapabilityReadiness.WaiterAnswers | backend/app/gateway/capability_readiness.py:140-183 | a waiter answers the wait-timeout fallback or the checks its owner produced: the owner's own answer, or the cancellation fallback if the owner was cancelled |
| CapabilityReadiness.WaiterIsServed | backend/app/gateway/capability_readiness.py:153-183 | however the probe ends, the owner's own next steps make a waiter ready |
| CapabilityReadiness.ProbeIsReported | backend/app/gateway/capability_readiness.py:89-183 | in every run, once a probe has ended, its owner and all its waiters answer with the evidence of its success or with the fallback for just its kind of failure; a cancelled owner raises instead |
| CapabilityReadiness.EvidenceWasProbed | backend/app/gateway/capability_readiness.py:108-183 | a call answers evidence, from the cache too, only if a probe for that very key succeeded with it |
| CapabilityReadiness.RequestMeets | backend/app/gateway/capability_readiness.py:121-138 | just when a request is a hit, joins the one call that probes its key, is turned away over 128 probing calls, or probes itself |
| CapabilityReadiness.WaitEnds | backend/app/gateway/capability_readiness.py:140-151 | a wait ends with the checks of the probe awaited, with the fallback for a wait too long, or cancelled, and that is final |
| CapabilityReadiness.CacheRefinesLatest | backend/app/gateway/capability_readiness.py:89-128 | a hit is the unexpired latest result for exactly that key; an unexpired one is missing only after a clear or 128 more recent keys |
| CapabilityReadiness.HitRepeatsLastProbe | backend/app/gateway/capability_readiness.py:89-128 | until the next probe for its key ends, and for 15 seconds, a hit repeats what the last one has produced |
| CapabilityReadiness.ClearForgets | backend/app/gateway/capability_readiness.py:46-50 | clearing empties the cache and touches no probe |
| CapabilityReadiness.CompleteOk | backend/app/gateway/capability_readiness.py:89-103 | completing stores the checks as the newest entry and evicts only the least recent |
| CapabilityReadiness.RunInv | backend/app/gateway/capability_readiness.py:89-183 | the cache, flight and promise invariants hold after any interleaving, the two completion phases apart |
| CapabilityReadiness.ReadinessTable.Begin | backend/app/gateway/capability_readiness.py:121-138 | the first critical section: hit, join, capacity fallback or ownership, and the table after it |
| CapabilityReadiness.ReadinessTable.CompleteProbe | backend/app/gateway/capability_readiness.py:94-103 | the second critical section with its eviction loop |
| FeishuBatches.BatchesConserveMessages | backend/app/channels/feishu.py:756-825 | each key's messages are, in order, those of its closed batches and then its pending one; each closed batch is handed on exactly once or on its way; each is the concatenation of its members; a pending batch has its own timer outstanding |
| FeishuBatches.QuietMeansDelivered | backend/app/channels/feishu.py:756-825 | once tasks and timers have run nothing is pending and everything was handed on once |
| FeishuBatches.Settles | backend/app/channels/feishu.py:745-825 | from every reachable state, if no message comes, a bounded number of steps leaves nothing pending, and every such step brings that nearer |
| FeishuBatches.QuickMessagesShare | backend/app/channels/feishu.py:756-799 | all messages of a key within 0.75 seconds of the one that opened a batch are in that batch, in order, until its timer pops it |
| FeishuBatches.OpensIff | backend/app/channels/feishu.py:756-799 | a message opens a batch exactly if its key has none or one older than 0.75 seconds |
| FeishuBatches.JoinedAsParagraphs | backend/app/channels/feishu.py:766-770 | the text of a batch has its captions that are not empty, in order, as paragraphs |
| FeishuBatches.StaleTimerPopsNothing | backend/app/channels/feishu.py:801-814 | with distinct message ids a timer pops only the batch it was armed for |
| FeishuBatches.PendingBatches.Queue | backend/app/channels/feishu.py:756-799 | joins within the window, else opens a batch and returns the one it displaces |
| FeishuBatches.PendingBatches.Pop | backend/app/channels/feishu.py:801-809 | pops exactly if the anchor is the pending batch's |
| FeishuCards.OneRunningCard | backend/app/channels/feishu.py:497-591 | if creations and patches succeed there is one card per source message and all updates reach it in order; once a final update was sent and dealt with, the card shows the final text and the id table drops the source |
| FeishuCards.OneCreationAtATime | backend/app/channels/feishu.py:507-543 | failures or not, at most one creation per source message is under way |
| FeishuCards.FinalIsShown | backend/app/channels/feishu.py:545-591 | whatever fails, once a source is closed a card shows the last text sent, which was the final one, or else Feishu returned no id for the final reply |
| FeishuCards.FinalStep | backend/app/channels/feishu.py:545-591 | a final update goes on until it closes the source, or until the task it awaited or its own reply raises; a failed patch leads to the reply |
| FeishuCards.FallbackShows | backend/app/channels/feishu.py:559-574 | from any reachable state, however its patches fail, a final update gets its text onto a card unless the task it awaits has failed |
| FeishuCards.SendMeets | backend/app/channels/feishu.py:545-585 | which card an update goes to, waits for, or creates |
| FeishuCards.CreationEnds | backend/app/channels/feishu.py:497-529 | a creation shows its text on a new running card, or nothing if it fails, and then makes room for another |
| FeishuCards.PartialStep | backend/app/channels/feishu.py:545-585 | an update that is not final is delivered, or lost in one of four named ways |
| FeishuCards.NewCardShows | backend/app/channels/feishu.py:507-585 | without a card or a creation under way, an update gets its text onto a new card, which is the running one from then on |
| TelegramStream.UpdateAgreesIff | backend/app/channels/telegram.py:139-194 | one update keeps all tracked texts equal to the shown ones exactly unless it loses an edit |
| TelegramStream.RegisterKeepsAgreement | backend/app/channels/telegram.py:308-316 | tracking a message keeps agreement and at most 256 entries |
| TelegramStream.FinalShowsText | backend/app/channels/telegram.py:196-229 | from any tidy table, with an honest bot: the tracked or replacement message followed by the overflow shows the final text's chunks in order, all of them if no send fails, exactly unless the edit is skipped on a tracked text that is not shown; no other conversation is touched |
| TelegramStream.AlwaysTidy | backend/app/channels/telegram.py:139-229 | in every run at most 256 conversations are tracked, each with an existing message of its own |
| TelegramStream.AgreesStepIff | backend/app/channels/telegram.py:139-229 | after any step a tracked text is the shown one exactly if the step put it there, or it was before and the step did not lose an edit |
| TelegramStream.RefreshTracks | backend/app/channels/telegram.py:139-194 | exactly which steps make a text the tracked one, on which message, and from when the next edit has to wait |
| TelegramStream.UpdateShows | backend/app/channels/telegram.py:139-194 | an update posts one message, edits its own alone, or does nothing, each for its own outcome of the calls |
| TelegramStream.EditsSpaced | backend/app/channels/telegram.py:169-174 | in every run a posted or edited message is left alone for a second, or three in a group |
| TelegramStream.OnlyOldestIsEvicted | backend/app/channels/telegram.py:308-316 | tracking one more drops a conversation exactly if 256 others are tracked, and then the oldest |
| TelegramStream.AgreesUnlessLost | backend/app/channels/telegram.py:139-229 | after every run with an honest bot a tracked text is the shown one exactly unless the last edit that counted was lost |
| TelegramStream.FinalAfterRun | backend/app/channels/telegram.py:118-229 | every final text after any honest run: for a tracked conversation its messages show the text exactly unless the last edit that counted was lost and its text is the final one's first chunk; otherwise the text goes out as one message if it can be sent; no other message is touched |
| TelegramStream.LostEditHidesFinal | backend/app/channels/telegram.py:139-213 | the failing run: a lost first edit of the running reply, then a final text equal to that reply, which never shows |
| TelegramStream.TelegramChannel.Update | backend/app/channels/telegram.py:139-194 | a non-final update changes the cache and the chat as the lemmas assume |
| TelegramStream.TelegramChannel.Register | backend/app/channels/telegram.py:308-316 | the eviction loop keeps the newest 255 others |
| TelegramStream.TelegramChannel.EditFinalChunk | backend/app/channels/telegram.py:215-229 | two attempts at most, the second only after a rate limit |
| TelegramStream.TelegramChannel.Finalize | backend/app/channels/telegram.py:196-213 | the final update, with the edit skipped when the tracked text is the first chunk |
| TelegramStream.TelegramChannel.SendFinal | backend/app/channels/telegram.py:131-137 | a final message finishes a tracked conversation and otherwise goes out as it is |
| TelegramStream.TelegramChannel.SendRunningReply | backend/app/channels/telegram.py:337-356 | the reply is tracked with its text and may be edited at once |
| TextSplit.TelegramSplitRejoins | backend/app/channels/telegram.py:333-335 | the chunks concatenate to the text, and only an empty text has an empty one |
| TextSplit.TelegramSplit | backend/app/channels/telegram.py:333-335 | at least one chunk, each at most 4096 characters |
| TextSplit.DiscordSplit | backend/app/channels/discord.py:605-622 | non-empty chunks of at most 2000 characters that rebuild the text with newline-only gaps put back |
| DiscordThreads.RecordKeepsExactIff | backend/app/channels/discord.py:134-140 | the exact condition for the reverse index to stay the set of mapped threads |
| DiscordThreads.SharedThreadForgotten | backend/app/channels/discord.py:116-140 | the failing run: a stored thread of two channels is forgotten when one of them gets a new thread |
| DiscordThreads.RecognisedIffCurrent | backend/app/channels/discord.py:116-140 | while only new threads are recorded, a thread is recognised exactly if it is the current one of some channel, and never of two |
| DiscordThreads.ThreadTable.Record | backend/app/channels/discord.py:134-140 | the method computes that table |
| DiscordThreads.ThreadTable.Load | backend/app/channels/discord.py:116-132 | restoring a stored table makes the index exact |
| WechatKeys.KeyFormsParseBack | backend/app/channels/wechat.py:1140-1215 | every 16-byte key is recovered from its hex, base64, base64-of-hex and raw form under both preferences |
| WechatKeys.PreferenceIrrelevant | backend/app/channels/wechat.py:1183-1215 | the hex/base64 preference never changes the result, for any value |
| WechatKeys.HexIsNotBase64 | backend/app/channels/wechat.py:1140-1181 | a 32-digit hex text never yields a key as base64 |
| WechatKeys.HexFormParses | backend/app/channels/wechat.py:1183-1215 | hex in either case and with spaces between bytes is read |
| WechatKeys.UrlSafeFormParses | backend/app/channels/wechat.py:1140-1181 | the URL-safe base64 form (RFC 4648 section 5) is read |
| WechatKeys.ParsedKeySize | backend/app/channels/wechat.py:1183-1215 | whatever is parsed is a 16-byte key |
| TextCodecs.Base64RoundTrip | backend/app/channels/wechat.py:119-120 | base64 decoding inverts encoding, in both the strict and the lenient reading |
| TextCodecs.HexRoundTrip | backend/app/channels/wechat.py:119-120 | hex decoding inverts encoding |
| WechatCipher.DecryptInvertsEncrypt | backend/app/channels/wechat.py:90-105 | for every key, content and ciphertext, one decrypts to the other exactly if the other encrypts to the one (RFC 5652 section 6.3 padding over ECB) |
| WechatCipher.CipherBlocks | backend/app/channels/wechat.py:90-96 | each block of a ciphertext encrypts that block of the content followed by 1 to 16 bytes that say how many they are |
| WechatCipher.DeclaredSizeIsCiphertextLength | backend/app/channels/wechat.py:79-105 | encryption succeeds exactly with a 16-byte key, and the declared file size is the ciphertext's length |
| StreamMerge.MergeKeepsBoth | backend/app/channels/manager.py:351-363 | a merge keeps the old text as prefix and the chunk as suffix, and repeating the chunk changes nothing |
| StreamMerge.CumulativeFold | backend/app/channels/manager.py:351-363 | folding a cumulative stream gives its last chunk |
| StreamMerge.DeltasConcatenateIff | backend/app/channels/manager.py:351-363 | folding deltas gives their concatenation exactly if each is plain for the concatenation of those before it |
| StreamMerge.RepeatedDeltaIsLost | backend/app/channels/manager.py:351-363 | an input for which it fails: two equal deltas count once |
| StreamMerge.BuffersNeverMix | backend/app/channels/manager.py:366-414 | however messages interleave, each buffer is the fold of that message's own chunks, where a chunk belongs to the first id its event has, or else to the message of the last event before it with one |
| StreamMerge.AnswerIsOwnText | backend/app/channels/manager.py:380-414 | an event with text is answered with the text so far of the message it belongs to |
| StreamMerge.StreamBuffers.Accumulate | backend/app/channels/manager.py:380-414 | the buffers, the answer and the current message id after an event |
| StreamPublish.StreamChat | backend/app/channels/manager.py:1482-1575 | exactly one final message, non-empty and after all partials, whatever ends the stream: the response with its artifact listings, or else an error message, the latest text or a placeholder |
| StreamPublish.FinalResponse | backend/app/channels/manager.py:1537-1558 | the final text: response and artifact listings as paragraphs, or else the busy message, the error message, the latest text or the placeholder, each for its own ending |
| StreamPublish.LatestText | backend/app/channels/manager.py:1488-1500 | after every event the latest text is that of the message just streamed or of a snapshot asking for clarification |
| StreamPublish.PartialsSpaced | backend/app/channels/manager.py:1502-1529 | consecutive partials differ, each at least one second later or sixty characters longer |
| StreamPublish.FewPartials | backend/app/channels/manager.py:1502-1529 | at most one partial plus one per elapsed second plus one per sixty characters |
| StreamPublish.LatestIsRecent | backend/app/channels/manager.py:1502-1529 | the latest text is never a second old and sixty characters ahead without being published |
| Shutdown.StopDrains | backend/app/channels/manager.py:942-1012 | without late starts: a shutdown finishes only when the loop and its handlers have, a manager neither running nor stopping is drained, and there is one live loop at most |
| Shutdown.CallerFindsDrained | backend/app/channels/service.py:220-232 | a caller returning from stop, or a service about to close transports, has awaited a shutdown that finished in the run; without late starts before that, every loop and handler there was then has ended and stays so, even if the manager was started again |
| Shutdown.FinishedStaysDrained | backend/app/channels/manager.py:953-981 | what was there when a shutdown finished stays ended whatever follows |
| Shutdown.StopsShareOneShutdown | backend/app/channels/manager.py:953-981 | overlapping stops share one shutdown and no handler is cancelled twice, in every run |
| Shutdown.WaitsForCancelled | backend/app/channels/manager.py:964-981 | in every run a shutdown waits only for a loop it has cancelled or that has ended, and then for all unfinished handlers, each cancelled exactly once |
| Shutdown.StopAwaits | backend/app/channels/manager.py:953-962 | every call of stop awaits the one unfinished shutdown there is then, under way or new |
| Shutdown.StartAwaits | backend/app/channels/manager.py:942-951 | a call of start awaits an unfinished shutdown, and otherwise leaves the manager running with one new loop at most |
| Shutdown.WaitersGoOn | backend/app/channels/service.py:220-232 | a waiting caller goes on just when its shutdown is finished; only then are transports closed, and only by the service |
| Shutdown.OneLoop | backend/app/channels/manager.py:942-981 | in every run in which no start goes on while a newer shutdown waits for its loop, there are never two live dispatch loops |
| Shutdown.TwoLoopsIffOvertaking | backend/app/channels/manager.py:942-981 | after a waiting start goes on, a run without another such start reaches two live loops if and only if a newer shutdown was waiting for its loop |
| Shutdown.DrainsIffNotLate | backend/app/channels/manager.py:942-981 | the shutdown that finishes next after a waiting start goes on finds every loop and handler ended if and only if none had taken hold at that moment |
| Shutdown.LateStartRun | backend/app/channels/manager.py:942-981 | the failing run: two live loops |
| Shutdown.LoopSurvives | backend/app/channels/manager.py:964-981 | the same run goes on: a shutdown ends while a loop started during it lives |
| Shutdown.LateStartEscapesStop | backend/app/channels/manager.py:953-981 | and a later stop returns while that loop lives |
| ChannelLifecycle.SingleInstance | backend/app/channels/service.py:175-218 | in every honest and calm run the instance that runs is the registered one, so no channel has two |
| ChannelDoubling.NeverTwice | backend/app/channels/service.py:175-232 | no channel runs twice in a run without any of the four bad steps |
| ChannelDoubling.DoublesIff | backend/app/channels/service.py:175-232 | after a step some good run makes a channel run twice if and only if the step is a start that raises while its instance runs, a close that fails to stop a running instance no other stop holds, a stop while a call is inside, or a start of the service during a stop |
| ChannelDoubling.RaisingDoubles | backend/app/channels/service.py:310-342 | the failing run after a raising start, from any state it can happen in: its retry or a further call starts another instance |
| ChannelDoubling.FailedCloseDoubles | backend/app/channels/service.py:220-232 | the failing run after a failed close |
| ChannelDoubling.BusyStopDoubles | backend/app/channels/service.py:220-232 | the failing run after a stop over a call inside |
| ChannelDoubling.EarlyStartDoubles | backend/app/channels/service.py:145-155 | the failing run after a start of the service during a stop |
| ChannelLifecycle.ReadyIsLive | backend/app/channels/service.py:190-218 | true is returned only while the registered instance runs |
| ChannelLifecycle.AnswersIff | backend/app/channels/service.py:175-218 | true is answered exactly when the call finds its channel running or has started it, false exactly for a disabled channel, a cancelled call or a last start that failed |
| ChannelLifecycle.FalseMeansFailed | backend/app/channels/service.py:175-218 | over any run a call gives up only without a running service, for a disabled channel, when cancelled, or after all the starts it was asked for, at least one, and never makes more |
| ChannelLifecycle.StopEscapesIff | backend/app/channels/service.py:220-232 | a stop can leave a channel running exactly if a call is inside `ensure_channel_ready` when it begins |
| ChannelLifecycle.BusyEscapes | backend/app/channels/service.py:220-232 | the failing run, built from any such state |
| ConversationStore.ListingInvertsKeyIff | backend/app/channels/store.py:75-153 | splitting a key gives its conversation back exactly for well-named ones |
| ConversationStore.KeyInjective | backend/app/channels/store.py:75-79 | well-named conversations have different keys |
| ConversationStore.ColonCollision | backend/app/channels/store.py:75-79 | with colons two conversations can share a key |
| ConversationStore.SetRefines | backend/app/channels/store.py:87-107 | setting updates that conversation alone and keeps `created_at` |
| ConversationStore.RemoveRefines | backend/app/channels/store.py:109-137 | removal without a topic deletes exactly that chat's base and topic entries, with one only that entry |
| ConversationStore.DoomedIsSameChat | backend/app/channels/store.py:126-137 | whatever is stored, the prefix test picks exactly the keys that are listed under that channel and chat |
| ConversationStore.ListingExact | backend/app/channels/store.py:139-153 | listing reports exactly the stored conversations, or those of one channel |
| ConversationStore.ChannelStore.SetThreadId | backend/app/channels/store.py:87-107 | the method computes that update |
| ConversationStore.ChannelStore.Remove | backend/app/channels/store.py:109-137 | the method computes that removal and says whether anything was there |
| EnvFile.ReadAfterWriteIff | scripts/wizard/writer.py:37-78 | reading after writing gives the old settings overridden by the new, exactly if the new ones are storable |
| EnvFile.UnstrippedValueIsLost | scripts/wizard/writer.py:37-78 | an input for which it fails: a value that begins with a space |
| EnvFile.LinesKeepTheirPlace | scripts/wizard/writer.py:52-72 | every old line keeps its place; only an assignment to a given key changes, and only its value |
| EnvFile.NewLinesGoLast | scripts/wizard/writer.py:74-78 | new keys are appended behind all old lines, in order, for every file, missing or empty ones too |
| EnvFile.WriteTwice | scripts/wizard/writer.py:52-78 | writing the same settings twice is writing them once |
| EnvFile.ReadsBackIffClean | scripts/wizard/writer.py:42-49 | an assignment reads back from its line exactly if it is clean |
| EnvFile.SplitJoined | scripts/wizard/writer.py:61-78 | the lines written are the lines read, with one empty line for none |
| EnvFile.SplitFirst | scripts/wizard/writer.py:61-62 | a text is split at each of the line ends of `str.splitlines`, CR LF as one, and nowhere else |
| EnvFile.ReadEnvFile | scripts/wizard/writer.py:37-49 | the reading loop computes the settings the lemmas speak of |
| EnvFile.WriteEnvFile | scripts/wizard/writer.py:52-78 | the two writing loops compute the text the lemmas speak of |
| EnvFile.UpdateLines | scripts/wizard/writer.py:62-72 | the first loop rewrites in place and collects exactly the given keys that are assigned |
| Migration.MigrationDelivers | backend/scripts/migrate_user_isolation.py:23-135 | after a successful run every shared directory is at its one target with everything in it, and gone from its old place |
| Migration.ThreadsReachTheirOwners | backend/scripts/migrate_user_isolation.py:45-68 | `threads/name` arrives under its owner on record, or under the default user, or aside in a conflict, and the report of a real or a dry run says so |
| Migration.AgentsReachTheUser | backend/scripts/migrate_user_isolation.py:105-128 | `agents/name` arrives under the given user, or aside in a conflict, and the report says so |
| Migration.SharedDirectoryGoesIff | backend/scripts/migrate_user_isolation.py:70-72 | a successful run takes the shared directory away exactly if it held no file |
| Migration.MigrationKeeps | backend/scripts/migrate_user_isolation.py:23-135 | everything else keeps its place and content, whether the run succeeds or not |
| Migration.NothingLost | backend/scripts/migrate_user_isolation.py:45-68 | a run that fails halfway leaves every directory whole, at its old place or its target |
| Migration.SucceedsIff | backend/scripts/migrate_user_isolation.py:45-68 | a run succeeds exactly if there was room for each directory at the start |
| Migration.MigrationSucceedsIff | backend/scripts/migrate_user_isolation.py:40-74 | the whole migration succeeds exactly if nothing is shared, or a directory is and all in it have room; a dry run changes nothing |
| Migration.ReportIsTrueIff | backend/scripts/migrate_user_isolation.py:54-68 | the reported place holds the directory exactly if nothing was there before |
| Migration.TakenConflictMisreports | backend/scripts/migrate_user_isolation.py:54-60 | a tree for which it fails: the conflict place is taken, and the directory lands inside |
| Migration.DryRunForetells | backend/scripts/migrate_user_isolation.py:23-74 | a dry run changes nothing and reports what the real run reports |
| Migration.ReportIsComplete | backend/scripts/migrate_user_isolation.py:45-68 | the report lists the shared directories once each, in the order of the listing, each with its entry |
| Migration.SecondRunDoesNothing | backend/scripts/migrate_user_isolation.py:70-74 | a second run, real or dry, changes and reports nothing |
| Migration.FileTree.MigrateShared | backend/scripts/migrate_user_isolation.py:23-135 | the loop computes the migration the lemmas speak of |

## Left out

- Protocols as objects: thread creation, shutdown, running cards and channel lifecycle are transition systems only, because their methods suspend in the middle; dedupe, readiness table, batches, stream tracking, buffers, store and thread table are classes.
- Lock fairness: a released lock may go to any waiter, where asyncio serves them in order; everything proved holds for each order.
- Replacing a thread with `/new`, which writes the mapping outside the creation lock (manager.py:1613-1616).
- `restart_channel`, `configure_channel` and `remove_channel`, which skip the per-channel lock; single instances are claimed for `ensure_channel_ready` and `stop` only.
- ChannelLifecycle.SingleInstance: assumes that a start that raises leaves nothing running, that closing a channel closes it, that the service is stopped only while no call is inside, and that it is not restarted during a stop; `DoublesIff` says which of these single steps can make a channel run twice, and that they are the only ones.
- Shutdown.StopDrains: assumes that no start that waited resumes during a newer shutdown, because the code does not look again; `DrainsIffNotLate` gives the exact condition for draining and `TwoLoopsIffOvertaking` that for a second loop. A crash of the dispatch loop itself is not modelled.
- FeishuBatches.StaleTimerPopsNothing: assumes distinct message ids, because the code tells batches apart by their anchor alone.
- FeishuCards.OneRunningCard: follows one source message, since every step of the tables touches one key, and takes the updates of a source one at a time, as they are published.
- What makes a Feishu message a file message, and the case of a missing main loop, in which a batch is not scheduled.
- Interleaving inside one Telegram update: an update is one step that carries the bot's answers; two updates of one conversation do not overlap because each publish is awaited.
- The length of Telegram's final message without a tracked one: it is sent unsplit (telegram.py:137), so the bound of 4096 is claimed for tracked conversations only. A send that reports an error after posting would leave one more message, which is never tracked and not modelled.
- The extraction of dedupe keys, workspace ids, message ids and texts from platform payloads, and the resolution of artifacts: their results, such as the two listings of artifacts, are parameters.
- Publishing that raises, retry backoff, pagination, authorization and command parsing.
- The order in which the conversation store lists its entries, its JSON file and temporary files, and Discord's mapping file.
- AES and MD5: the block cipher is any family of bijections on 16-byte blocks.
- Strict base64 decoding of texts with padding at a quad boundary follows CPython's refusal; other decoders may differ.
- Text files: universal newlines and UTF-8 decoding of a `.env` file happen before the model's text; other settings files of the wizard are not modelled.
- Migration of `memory.json`, the owner query on the database, symbolic links, permissions, and user ids that are not a single path component; names of directories are compared as given. The order of a directory listing is a parameter, so the results hold for the sorted one.
- The `vassilflow` packages (paths, configuration, run manager, persistence) are not part of this model; agent directories are laid out as the migration's documentation says.
