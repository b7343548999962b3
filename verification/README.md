# A verified model of the OpenCAS runtime cores

This project models the parts of OpenCAS whose behaviour is decided by their own code, and proves what
their documentation and callers rely on. Each module follows one component of the repository; the
entities the source mutates are classes here, its loops are methods with invariants, and every such
method is tied to a function or predicate about which the larger statements are proved.

| files | component |
|---|---|
| `text.dfy`, `utf8.dfy` | `strip`, `split` and strict UTF-8, as the other modules need them |
| `registry.dfy`, `registry_agreement.dfy`, `registry_writer.dfy` | the affective registry: forward and chunked backward JSON-lines readers, validated appends, newest entries |
| `phone_session.dfy`, `phone_replay.dfy`, `phone_replay_proof.dfy`, `phone_live.dfy`, `phone_drift.dfy`, `phone_laws.dfy` | the live phone state machine, its trace, and the offline replay of that trace, with lone events and what follows them; what the states mean for menus, PIN gate and hang-up |
| `contact_policy.dfy`, `contact_safety.dfy`, `contact_verdicts.dfy` | proactive owner contact: gates recomputed from the last 2000 log entries |
| `mulaw.dfy`, `endpointer.dfy`, `owner_pin.dfy` | phone audio: mu-law codec (section 3.2 of ITU-T G.711), speech endpointing, keypad PIN |
| `telegram_chunks.dfy`, `telegram_context.dfy`, `telegram_poll.dfy`, `telegram_redelivery.dfy` | message chunking, the bounded outbound store, the long-poll offset under crashes and what they bring back |
| `mobile_bridge.dfy` | idempotent event ingest and acknowledgement paging |
| `chat_turns.dfy` | one chat turn at a time per session |
| `model_routing.dfy` | tier fallbacks and the routing sanitiser |
| `phone_menus.dfy` | menu validation and the menu a session stands in |
| `search_tree.dfy` | the heap-linked binary search tree script |

## Results

- The backward reader returns the forward reader's entries in reverse for every chunk size, and for
  every JSON parser, exactly when the file is valid UTF-8 and no stripped line still holds a carriage
  return. JSON allows a carriage return between tokens, and text mode splits a line there; the proof
  gives the parser that tells the readers apart.
- With file locking on, an append leaves its line at most once, and exactly once when it succeeds; it
  never returns exactly when a retry gets to the lock an earlier attempt of its own still holds. With
  locking off it always returns, and a retried sync can leave the line twice.
- Replaying the trace of any run of a started phone session gives the machine's own diagnostics. Where
  a trace call and its machine call come apart (a menu route that raises, a reply trace that arrives
  late or whose machine call never follows, a second start event) the exact condition for the replay to
  stay right is proved. Behind a failed menu route and its error event the replay shows the machine's
  state for the rest of the call, but an entry too many in its timeline is never lost. Apart from the
  replay, the states are tied to the menus, the PIN gate and the reasons a call ends for.
- In every sequential run on a clock that never goes back, the contact log keeps its windows: nothing
  more is logged for a contacted source within the cooldown and 2000 entries although escalation can
  override holds, budgets bound any stretch of 2001 entries, and equal fingerprints keep their distance.
  In every run each candidate's fate is given exactly: a contact needs every gate, the model's word, a
  message worth sending and a delivery that succeeded. The log shows every call to the model exactly
  when no delivery raised after one; the calls lost that
  way are what a stretch can hold beyond its budget.
- The codec's error, order, symmetry and fixed points hold for every integer sample; a payload survives
  decoding and encoding except that 0x7F becomes 0xFF.
- The endpointer loses only gap bytes older than the pre-roll, and flushes only after enough silence.
- The PIN gate is a function of the typed digits alone exactly when no key event carries digits past a
  block that leaves the gate undecided; single keys never do.
- The chunker loses no visible character, prefers a line end to a word end, and cuts inside a word only
  when it must; pruning the outbound
  store on the way and pruning once agree.
- The poll loop never moves an offset past an update it has not handled. A service handles no update
  twice, and after its end, by crash or cancellation, a handled update comes back exactly when it is not
  below the offset in the file and the server still has it. That an update is handled at all is not
  promised: a handler that always raises keeps the loop at its update.
- Acknowledged ids never change, and paging lists each of a device's events once, in order, while events
  keep arriving. A stored event names its own device and is well formed, and exactly the others are
  refused. The in-flight map is exactly the running chat turns.
- Sanitising the model routing is idempotent except for two families of inputs, given exactly: one with
  available models, one without any. Two applications always reach a fixed point. Every tier gets the
  model its own setting names whenever there is one.
- An open session in a menu mode stands in a defined menu, and no session names an undefined one,
  exactly when the configuration has a menu.

## Model

| member | source | states |
|---|---|---|
| AffectiveRegistry.ReadJsonl | opencas/affective_registry/writer.py:335-348 | the forward reader yields, in file order, what each line of the decoded text with universal newlines parses to, and fails as a whole when the file does not decode |
| AffectiveRegistry.ReadJsonlReverse | opencas/affective_registry/writer.py:350-394 | for every chunk size of at least 1 the chunked reader yields the file's line entries newest first, blank, undecodable and unparseable lines skipped |
| AffectiveRegistry.TakeCompleteLines | opencas/affective_registry/writer.py:375-387 | of a split buffer all lines but the first are yielded, last one first |
| AffectiveRegistry.PendingStep | opencas/affective_registry/writer.py:368-378 | one chunk further back, the carried first line plus the new chunk account for exactly the lines of the longer file tail, wherever the boundary cuts |
| Utf8.EncodeDecodes | opencas/affective_registry/writer.py:210 | encoding text and decoding it gives the text back |
| Utf8.ValidCut | opencas/affective_registry/writer.py:376-378 | valid text cut before a byte that continues no character is valid on both sides, so splitting bytes at newlines never breaks a character |
| RegistryAgreement.BytesAgreeWithText | opencas/affective_registry/writer.py:339-387 | splitting bytes and decoding each line selects the same entries as decoding and splitting the text, although the two readers strip different sets of blanks |
| RegistryAgreement.AgreeWithoutInnerCR | opencas/affective_registry/writer.py:335-394 | on valid text whose stripped lines hold no carriage return the two readers agree for every parser |
| RegistryAgreement.DisagreeWithInnerCR | opencas/affective_registry/writer.py:339-341 | on valid text, a carriage return left inside a stripped line makes the readers differ for some parser |
| RegistryAgreement.ReadersAgreeExactly | opencas/affective_registry/writer.py:335-394 | the readers agree for every parser if and only if the file is valid UTF-8 and no stripped line holds a carriage return |
| RegistryAgreement.CarriageReturnFile | opencas/affective_registry/writer.py:339-341 | the file of an opening brace, a carriage return and a closing brace is one where they differ |
| RegistryAgreement.NoCRIsEnough | opencas/affective_registry/writer.py:339-341 | a file without carriage returns meets that condition |
| RegistryWriter.Writer.ValidateAppend | opencas/affective_registry/writer.py:297-333 | the read-back matches exactly when the file ends with the expected bytes, and reports a too short file as such |
| RegistryWriter.Writer.Append | opencas/affective_registry/writer.py:96-125 | under the thread lock, an append adds one encoded line per attempt that gets as far as writing, behind all old bytes; it succeeds exactly when its last attempt synced the line and its read-back matched or was not asked for, reports a validation error exactly for a failed read-back and a write error exactly for a failure up to the sync; a blocked append blocks all later ones |
| RegistryWriter.Writer.AppendLocked | opencas/affective_registry/writer.py:203-290 | a transient failure is tried again, up to the limit, before the failed attempt unlocks; an attempt that finds the lock held by an earlier one never returns |
| RegistryWriter.CourseExactly | opencas/affective_registry/writer.py:243-256 | every attempt but the last failed transiently; the last one did not, or was the last retry |
| RegistryWriter.BlocksExactly | opencas/affective_registry/writer.py:225-256 | with locking on an append never returns if and only if, behind transient failures only and within the limit, an attempt gets to the lock that an earlier one took |
| RegistryWriter.LockedOnce | opencas/affective_registry/writer.py:203-290 | with locking on an append leaves its line at most once however it ends, and exactly once when it succeeds |
| RegistryWriter.UnlockedOnceExactly | opencas/affective_registry/writer.py:203-290 | with locking off an append always returns; a successful one has left its line once if and only if no earlier attempt had written it, a failed one has left the file alone if and only if no attempt had written |
| RegistryWriter.SyncRetried | opencas/affective_registry/writer.py:231-256 | a transient failure of the sync leaves the line twice with locking off, and never returns with locking on |
| RegistryWriter.TakeUntil | opencas/affective_registry/writer.py:176-180 | n items are taken, but never fewer than one while there is one |
| RegistryWriter.Writer.GetLatest | opencas/affective_registry/writer.py:174-182 | the newest max(n, 1) entries (or all, if fewer) in append order, for every chunk size and every n |
| RegistryWriter.FileOfReadsBack | opencas/affective_registry/models.py:135-142 | after any run of appends the backward reader's entries are exactly the appended ones, if serialised entries are single lines that parse back |
| RegistryWriter.ForwardReadsBack | opencas/affective_registry/writer.py:162-164 | so are the forward reader's, since serialised entries hold no carriage return |
| PhoneSession.PhoneSessionMachine.constructor | opencas/phone_session_state.py:17-27 | a new machine starts in the state of its stripped, lower-cased mode, recorded as the first timeline entry; a blank mode means the owner's line |
| PhoneSession.PhoneSessionMachine.RecordState | opencas/phone_session_state.py:39-62 | a transition is recorded exactly when the stripped state is not blank and changes or the timeline is empty; the report names the state before it, the mode and the menu key |
| PhoneSession.PhoneSessionMachine.OnDtmf | opencas/phone_session_state.py:64-70 | a key moves only the PIN, menu, navigation and retry states |
| PhoneSession.PhoneSessionMachine.OnMenuChoice | opencas/phone_session_state.py:75-91 | a choice sets the normalised mode, the stripped menu key and the terminal action and moves to the action's state |
| PhoneSession.PhoneSessionMachine.OnOwnerPinVerified | opencas/phone_session_state.py:93-96 | a verified PIN switches to the normalised mode and stripped menu key and records owner_verified |
| PhoneSession.PhoneSessionMachine.OnOwnerPinRejected | opencas/phone_session_state.py:98-101 | the third rejection is a failure, earlier ones are retries |
| PhoneSession.PhoneSessionMachine.OnTranscribed | opencas/phone_session_state.py:103-109 | speech is heard as menu, workspace or owner speech by the current state |
| PhoneSession.PhoneSessionMachine.OnClose | opencas/phone_session_state.py:131-134 | closing keeps the stripped reason, or none, and records it or stream_closed |
| PhoneReplay.AnalyzePhoneCallTimeline | opencas/phone_session_state.py:204-354 | the analyser's loop computes the projection of the time-sorted trace, an empty trace giving empty diagnostics |
| PhoneReplayProof.SortOrdered | opencas/phone_session_state.py:207 | the stable sort leaves a trace in time order alone |
| PhoneReplayProof.RunWellRun | opencas/phone_session_state.py:39-62 | in every run the visited states are the timeline's states at first occurrence, neighbours differ and the last one is current |
| PhoneReplayProof.StepAgrees | opencas/phone_session_state.py:251-335 | from an agreeing view, the events any session step emits lead the analyser to the machine's next state, timeline, terminal action and hangup reason |
| PhoneReplayProof.ReplayAgrees | opencas/phone_session_state.py:147-156 | for every run the replayed trace gives the machine's own diagnostics: state, visited states, states with reasons, terminal action, hangup reason and class |
| PhoneLive.LiveSession.Perform | opencas/phone_streaming.py:349-371 | each handler drives the machine and extends the trace as the run's steps define, in the source's order of trace and machine calls |
| PhoneLive.LiveSession.Replay | opencas/phone_session_state.py:204-354 | at any moment the offline replay of a live session's trace is the machine's diagnostics |
| PhoneLive.RouteFailureAgrees | opencas/phone_streaming.py:475-506 | when routing raises after the choice was traced, the replay is right if and only if the action's state is already current and its terminal action already set |
| PhoneLive.LateReplyTraceAgrees | opencas/phone_streaming.py:435-450 | a reply trace seen after the machine moved on leaves the replay right if and only if the machine is still generating a reply |
| PhoneLive.EarlyReplyTraceAgrees | opencas/phone_streaming.py:440-450 | a traced completed reply whose machine call does not follow leaves the replay right if and only if the machine has the reply ready already |
| PhoneLive.RestartAgrees | opencas/phone_streaming.py:269-273 | after a second start event the replay agrees with the new machine if and only if the old one had not moved or ended and both start in one state |
| PhoneDrift.StepsSame | opencas/phone_session_state.py:204-354 | once the replay shows the machine's state it shows it for good, and both timelines grow by the same entries, so an entry too many is never lost |
| PhoneDrift.RouteFailureReplay | opencas/phone_streaming.py:169-192 | after a traced choice whose route raises, the error event behind it and any further steps, the replay shows the machine's state, and its diagnostics are right if and only if the choice had named the machine's own state and the terminal actions agree by then |
| PhoneLaws.HeardByMode | opencas/phone_session_state.py:64-109 | keys and speech are heard by the mode a session is in: as menu input in the menu modes, as the PIN in PIN mode, as workspace or owner speech otherwise |
| PhoneLaws.ReplyNamesLane | opencas/phone_streaming.py:432-450 | a reply is recorded for the lane its speech was heard in |
| PhoneLaws.TransitionsTraced | opencas/phone_streaming.py:349-371 | in every run the transitions in the trace are the machine's timeline, entry by entry |
| PhoneLaws.ChoiceReachesLane | opencas/phone_session_state.py:83-86 | choosing the workspace assistant, or the owner, puts machine and replay into the state a session of that mode starts in |
| PhoneLaws.ChoiceTakesRoute | opencas/phone_session_state.py:75-91 | the machine takes over the mode and menu key the route leads to, and records the reason the action names |
| PhoneLaws.PromptsToHangUp | opencas/phone_session_state.py:77-90 | machine and replay prompt for the end exactly when the route hangs up, and then, and only then, the terminal action is set, to the action's name |
| PhoneLaws.HopsHearMenus | opencas/phone_session_state.py:64-109 | behind a submenu hop and an unmatched choice keys and speech are menu input again |
| PhoneLaws.HopExactly | opencas/phone_lane_policy.py:80-87 | a submenu hop goes to its target, in the owner's menu mode exactly when that is the owner's menu, where a PIN leads too |
| PhoneLaws.FailureIsClosed | opencas/phone_streaming.py:547-568 | told of a bad block with the attempts of the PIN gate, machine and replay are in the failure state exactly when the gate has closed; that state names a policy end |
| PhoneLaws.PinOpensRoute | opencas/phone_streaming.py:533-540 | the accepted PIN opens the owner's menu exactly when it is defined, else the owner's line |
| PhoneLaws.HangupExactly | opencas/phone_session_state.py:131-134 | closing leaves the closed state, the stripped reason and its class, read off the text of the reason |
| PhoneLaws.ClassExactly | opencas/phone_session_state.py:191-201 | a remote disconnect and a policy end are two reasons each, an error is any other text that says error or failed somewhere |
| ContactPolicy.ContactService.ListEvents | opencas/initiative_contact.py:61-74 | the newest entries up to the limit, and at least one while there is one |
| ContactPolicy.ContactService.SourceAlreadyEvaluated | opencas/initiative_contact.py:577-601 | the backward scan decides the source gate on the whole window |
| ContactPolicy.ContactService.RecentSimilarEvaluation | opencas/initiative_contact.py:710-731 | an event is found exactly when one in the window counts, carries the fingerprint and is recent, and it is the newest such event |
| ContactPolicy.ContactService.EvaluationBudgetSnapshot | opencas/initiative_contact.py:741-765 | the two counters are the numbers of model evaluations of the last hour and of the day |
| ContactPolicy.ContactService.ConsiderCandidate | opencas/initiative_contact.py:215-318 | a candidate passes the gates in order and leaves at most one entry, none when it is skipped or delivery raises; the model is called at most once, past every gate |
| ContactPolicy.ContactService.RunOnce | opencas/initiative_contact.py:147-189 | a tick considers its candidates in order under the run budget and stops where delivery raises, with the calls to the model that this takes; a disabled service logs nothing |
| ContactPolicy.ContactService.RequestContact | opencas/initiative_contact.py:110-141 | an explicit request is suppressed when the service is off or the message blank, else logged as sent or failed, and not at all when delivery raises; it names no source and passes no gate |
| ContactSafety.ScanExactly | opencas/initiative_contact.py:591-601 | a source is refused exactly when its newest recent event was not escalated over; one without a recent event never is |
| ContactSafety.SourceGateKept | opencas/initiative_contact.py:603-632 | escalating over a hold cannot hide a contact behind it within the window |
| ContactSafety.AppendSafe | opencas/initiative_contact.py:826-859 | appending an event that passed its checks keeps every window guarantee of the log |
| ContactSafety.RunSafe | opencas/initiative_contact.py:147-318 | every sequence of requests, candidates and ticks on a non-decreasing clock keeps those guarantees |
| ContactSafety.SourceLeftAlone | opencas/initiative_contact.py:577-632 | after a sent event, no event of that source is logged within the cooldown and the next 2000 entries, so there is no second contact |
| ContactSafety.SimilarApart | opencas/initiative_contact.py:237-247 | a decision and any earlier counted event with its fingerprint are at least the cooldown or more than 2000 entries apart |
| ContactSafety.BudgetsHold | opencas/initiative_contact.py:733-739 | any stretch of at most 2001 entries within an hour, or within a day, holds at most the configured number of model evaluations |
| ContactSafety.TickBudget | opencas/initiative_contact.py:156-181 | one tick only appends, and at most the run budget of model evaluations |
| ContactSafety.RunLogged | opencas/initiative_contact.py:258-318 | in every run the logged evaluations are, in order, the calls to the model that were not lost |
| ContactSafety.CallsLoggedExactly | opencas/initiative_contact.py:258-318 | there are as many logged evaluations as calls made to the model if and only if no delivery raised after a call |
| ContactSafety.CallBudgetsHold | opencas/initiative_contact.py:733-739 | in every run the calls made during a stretch of at most 2001 entries within an hour, or a day, are at most that budget plus the calls lost meanwhile |
| ContactSafety.CallsMeanwhile | opencas/initiative_contact.py:258-318 | every stretch of the log has its stretch of calls |
| ContactSafety.LostCallsPassLimit | opencas/initiative_contact.py:296-318 | two deliveries that raise at one moment make two calls against an hourly limit of one and log none |
| ContactSafety.TickCallBudget | opencas/initiative_contact.py:156-181 | one tick makes at most the run budget of calls, even when a delivery raises |
| ContactVerdicts.ConsiderExactly | opencas/initiative_contact.py:215-318 | in every run a heard candidate leaves one entry unless its delivery raises: sent exactly when it passed the gates, the model wanted it, it was worth it and the delivery succeeded; failed, deferred and held exactly in the other cases, with the gate or the decider it owes that to |
| ContactVerdicts.ConsiderCalls | opencas/initiative_contact.py:258-263 | it costs a call to the model exactly when it passed the gates and the model was there to be asked |
| ContactVerdicts.TickExactly | opencas/initiative_contact.py:157-181 | in every run one more candidate of a tick leaves nothing when an earlier delivery ended the tick or its source is spoken against, a hold when the run's budget is spent, and otherwise what considering it leaves |
| ContactVerdicts.TickOfNothing | opencas/initiative_contact.py:147-155 | a tick over nothing leaves nothing, and neither does one of a disabled service |
| ContactVerdicts.RequestExactly | opencas/initiative_contact.py:110-141 | a request is suppressed exactly when the service is off or the message blank, else logged as the delivery went, and not at all when that raises |
| ContactVerdicts.EntryExplained | opencas/initiative_contact.py:147-318 | every entry with a source is the work of a candidate of the run, which passed every gate unless the entry is a hold, and its status follows from decision, worth and delivery |
| ContactVerdicts.ContactedNotHeard | opencas/initiative_contact.py:577-632 | within the cooldown and the next 2000 entries after a contact no candidate of its source is heard, escalated or not, so no delivery is tried |
| ContactVerdicts.WorthGrows | opencas/initiative_contact.py:526-565 | a candidate with more to say is held no sooner; escalation, a task, a conflict or a rung of work is always worth sending |
| MuLaw.PcmToMulawByte | opencas/phone_streaming.py:841-857 | the mask search finds the segment with 2^(e+7) <= biased sample < 2^(e+8), for every integer sample |
| MuLaw.QuantisationError | opencas/phone_streaming.py:831-857 | decoding an encoded sample is within 2^(e+2) of the sample clipped to 32635, and within 32124 of zero |
| MuLaw.QuantisedMonotone | opencas/phone_streaming.py:831-857 | a larger sample never comes back smaller |
| MuLaw.QuantisedOdd | opencas/phone_streaming.py:831-857 | negating a sample negates what comes back |
| MuLaw.QuantisedIdempotent | opencas/phone_streaming.py:831-857 | a sample that came back comes back unchanged |
| MuLaw.ByteRoundTrip | opencas/phone_streaming.py:831-857 | every byte survives decoding and encoding except 0x7F, which becomes 0xFF; decoded bytes fit 16 bits |
| MuLaw.PackUnpack | opencas/phone_streaming.py:817-826 | little-endian signed packing and unpacking undo each other both ways |
| MuLaw.LittleEndian | opencas/phone_streaming.py:817-826 | the two bytes are the sample's digits in base 256 in two's complement, the low one first |
| MuLaw.MulawToPcm | opencas/phone_streaming.py:813-818 | the frames are the packed samples of the payload in order |
| MuLaw.PcmToMulaw | opencas/phone_streaming.py:821-828 | the codes are those of the whole samples in order, odd trailing byte included in the input or not |
| MuLaw.OddByteDropped | opencas/phone_streaming.py:822-823 | an odd trailing byte has no effect |
| MuLaw.MulawLength | opencas/phone_streaming.py:821-828 | n bytes give n div 2 codes |
| MuLaw.PayloadRoundTrip | opencas/phone_streaming.py:813-828 | a payload decoded and encoded is the payload with each 0x7F turned into 0xFF |
| SpeechEndpointer.Endpointer.AppendPreroll | opencas/phone_streaming.py:760-766 | the pre-roll keeps the last bytes up to its limit, and nothing when the limit is zero |
| SpeechEndpointer.Endpointer.HandleMedia | opencas/phone_streaming.py:285-311 | after each chunk the buffers hold what the chunks since the last flush define: the end of the gap, or that gap end and everything from the onset on, with the time of the last speech chunk |
| SpeechEndpointer.Endpointer.Tick | opencas/phone_streaming.py:373-396 | a tick flushes exactly when idle, after speech, with enough bytes, and the silence gap after the last speech chunk; it hands on the whole utterance and empties the buffers |
| SpeechEndpointer.StretchConserved | opencas/phone_streaming.py:300-311 | a stretch of audio is its lost old gap followed by its utterance; nothing is lost from a gap that fits the pre-roll |
| SpeechEndpointer.StreamConserved | opencas/phone_streaming.py:392-396 | the flushed stream is the lost gaps and the utterances in turn, byte for byte |
| SpeechEndpointer.PendingConserved | opencas/phone_streaming.py:300-311 | before the next flush the live buffers hold all but the old gap; the input buffer is empty while no speech was heard |
| SpeechEndpointer.RunSession | opencas/phone_streaming.py:285-396 | for every interleaving of media and ticks the whole stream is lost gaps, utterances and buffers in order; every utterance is long enough and flushed at least the silence gap after its last speech |
| OwnerPin.PinSession.HandleOwnerPinDigit | opencas/phone_streaming.py:514-569 | whatever the mode, a token extends the pending digits to six at most, and a sixth one is tried, opening the gate, using an attempt or closing the call |
| OwnerPin.PinSession.Handle | opencas/phone_streaming.py:333-335 | keys reach the PIN gate exactly in PIN mode; speech changes nothing |
| OwnerPin.PinSession.Receive | opencas/phone_streaming.py:150-168 | the receive loop takes the events one by one until the session closes its websocket |
| OwnerPin.TypedExactly | opencas/phone_streaming.py:514-562 | one more token moves the gate from what the digits so far define to what the longer digits define if and only if it is harmless: it ends within the block being typed, or the gate has decided, or the block it completes is the third or the PIN |
| OwnerPin.RunIsExpectedExactly | opencas/phone_streaming.py:514-569 | at every moment the gate is the one the typed digits define (consecutive six-digit blocks, the first good one of three opens, the third bad one closes) if and only if every key pressed is harmless |
| OwnerPin.GateAfterDigits | opencas/phone_streaming.py:514-569 | the mode is left exactly when one of the first three blocks is the PIN, closed exactly at eighteen digits without one, and otherwise attempts and pending digits are quotient and remainder by six |
| OwnerPin.DigitsTyped | opencas/phone_streaming.py:515-517 | a key adds to the digits exactly when it is nothing but digits |
| OwnerPin.SingleKeysHarmless | opencas/phone_streaming.py:317 | single-key tokens are harmless |
| OwnerPin.OverlongTokenLosesDigits | opencas/phone_streaming.py:517 | a token that is not harmless: its seventh digit is dropped |
| TelegramChunks.Cut | opencas/telegram_integration.py:1121-1129 | one cut leaves a trimmed chunk within the limit, a white gap and a shorter trimmed rest that spell the text; the cut is behind the last line end below the limit, else the last word end, else the limit |
| TelegramChunks.ChunkTelegramText | opencas/telegram_integration.py:1108-1130 | the chunks are trimmed, not empty and within the limit, spell the stripped text with white gaps between them, and each is cut from what the earlier ones left at the last line end, else the last word end below the limit |
| TelegramChunks.VisibleKept | opencas/telegram_integration.py:1126-1129 | no visible character is lost, repeated or moved |
| TelegramContext.OutboundContextStore.Record | opencas/telegram_integration.py:43-72 | a message with blank parts is ignored; any other is appended to the history with its text and full text, and the store is the pruned history |
| TelegramContext.OutboundContextStore.Lookup | opencas/telegram_integration.py:74-85 | the newest match among the unexpired last 80 messages, or none if no such message matches |
| TelegramContext.OutboundContextStore.Latest | opencas/telegram_integration.py:87-109 | the chat's newest message of that window if it is young enough, or none if no message of the chat is |
| TelegramContext.PrunedIsWindow | opencas/telegram_integration.py:127-138 | pruning a chronological history leaves its suffix from the first unexpired of the last 80 entries |
| TelegramContext.PruneAgain | opencas/telegram_integration.py:56-72 | pruning earlier, appending and pruning again is pruning the whole history once |
| TelegramPoll.StepKeeps | opencas/telegram_integration.py:1002-1017 | every action, with handler failures, failed saves, cancellations, crashes, torn offset files and updates the server forgets, keeps the delivery invariant |
| TelegramPoll.AtLeastOnce | opencas/telegram_integration.py:1002-1017 | in every run each arrived update below the saved, a requested or the current offset has been handled, and so has each one the server dropped |
| TelegramPoll.OffsetsGrow | opencas/telegram_integration.py:1009-1010 | from any reachable state, as long as the service lives the offset never goes back and the file never runs ahead of it |
| TelegramRedelivery.OncePerService | opencas/telegram_integration.py:1002-1017 | a service handles no update twice, and none below the offset it started from or already dropped |
| TelegramRedelivery.HandledOnce | opencas/telegram_integration.py:1002-1017 | as long as the first service lives no update is handled twice, whatever handlers and saves fail |
| TelegramRedelivery.AgainExactly | opencas/telegram_integration.py:1002-1017 | an arrived update can be handled again if and only if it is not below the offset the next request uses and the server has not dropped it |
| TelegramRedelivery.HandledAgainExactly | opencas/telegram_integration.py:1002-1105 | after the end of the first service, cancelled or crashed, a handled update can come back if and only if it is not below the offset in the file (zero if the crash tore it) and the server has not dropped it |
| TelegramRedelivery.RedeliversExactly | opencas/telegram_integration.py:1002-1105 | the end of a service brings some handled update back if and only if it falls between a handler and the raised offset, or both the file and the server are behind the offset in memory |
| TelegramRedelivery.FileBehind | opencas/telegram_integration.py:1009-1010 | as long as no save fails, the file is behind memory exactly between raising and saving the offset |
| TelegramRedelivery.CrashRedelivers | opencas/telegram_integration.py:1094-1105 | there is such a run, whose crash makes an update be handled twice |
| TelegramRedelivery.CancelRedelivers | opencas/telegram_integration.py:427-437 | a failed save and then a cancellation, as when the service is rebuilt, make an update be handled twice without a crash |
| TelegramPoll.PollLoop.PollOnce | opencas/telegram_integration.py:1004-1017 | a fetched batch is handled up to the first failing handler, each handled update below a saved offset |
| MobileBridge.MobileBridgeStore.RecordEvent | opencas/mobile_bridge.py:296-368 | a rejected event leaves the table alone with the first failing check's error; otherwise the returned id is the one stored for the key, and the event is no duplicate exactly when the table grew |
| MobileBridge.RefusedExactly | opencas/mobile_bridge.py:296-368 | an event is accepted exactly when it is complete, names the sending device, carries an object and has no confidence or one between 0 and 1; otherwise the first of these that fails names the error and nothing is stored |
| MobileBridge.RowsBrought | opencas/mobile_bridge.py:296-368 | in every run each stored row was brought, field by field, by such an event of the row's own device |
| MobileBridge.BatchStores | opencas/mobile_bridge.py:483-504 | after a batch every event before the first refused one has a row of its key |
| MobileBridge.MobileBridgeStore.IngestEvents | opencas/mobile_bridge.py:483-504 | a completed batch has accepted + duplicates = its size, accepted = the rows added, and each acknowledgement names its event's row; a batch with a rejected event fails but keeps the rows before it |
| MobileBridge.MobileBridgeStore.ListAcks | opencas/mobile_bridge.py:370-398 | a page is the first rows of the device behind the cursor, between 1 and 500 of them |
| MobileBridge.RecordSound | opencas/mobile_bridge.py:140-156 | there is one row per device and key, ids grow down the table, and rows are only added |
| MobileBridge.AckStable | opencas/mobile_bridge.py:351-360 | an acknowledged id never changes |
| MobileBridge.RetryIsDuplicate | opencas/mobile_bridge.py:337-368 | sending an event again changes nothing and returns the same id as a duplicate |
| MobileBridge.DeviceRowsAre | opencas/mobile_bridge.py:378-387 | the rows listed for a device are exactly the table rows that carry its id |
| MobileBridge.PageContinues | opencas/mobile_bridge.py:370-398 | the page behind the last seen id holds the device's next rows and is empty only when none are left |
| MobileBridge.PagingListsOnce | opencas/mobile_bridge.py:370-504 | under any interleaving of batches, failures, retries and pages a client has read the first rows of its device, each once and in order |
| ChatTurns.ChatRuntime.Claim | opencas/api/chat_service.py:185-210 | a claim succeeds exactly when the session is free, and a rejected one leaves all claims as they were |
| ChatTurns.ChatRuntime.Release | opencas/api/chat_service.py:213-222 | once the guard lock exists, a release removes this session's claim and no other, in every form the attribute can have; before that it does nothing |
| ChatTurns.ChatRuntime.PerformChatTurn | opencas/api/chat_service.py:482-535 | an undisturbed call leaves the claims as it found them, whether the reply or the voice returns, times out, raises or is cancelled, and is rejected exactly when the session was claimed |
| ChatTurns.ChatRuntime.Act | opencas/api/chat_service.py:185-222 | a caller's claim or release on the shared runtime is its step in the interleaving model |
| ChatTurns.InFlightIsRunning | opencas/api/chat_service.py:482-535 | in every interleaving the in-flight map is exactly the sessions of the running turns, one turn each, each under the preview of its message |
| ChatTurns.OthersKeepTheirClaim | opencas/api/chat_service.py:482-535 | no step of another caller, rejected or finished, ends a running turn's claim |
| ChatTurns.FinishFrees | opencas/api/chat_service.py:497-535 | a waiting caller is rejected while the turn runs and admitted after it ended in any way |
| ChatTurns.LegacyStaysClaimed | opencas/api/chat_service.py:108-125 | a session taken over from the legacy set has no turn and stays claimed in every run |
| ModelRouting.SanitizeModelRoutingState | opencas/model_routing.py:287-330 | the loops clean and deduplicate the available ids in order and clamp the routing to them |
| ModelRouting.ClampedKnown | opencas/model_routing.py:315-330 | the default and the five model fields are all available |
| ModelRouting.SanitizedTwice | opencas/model_routing.py:226-330 | for every list, sanitising twice equals once if and only if the input is in neither moving family (tiered, standard unresolved, default and single resolved to different models; or no usable id and a blank field that its fallback fills), and two applications are always enough |
| ModelRouting.FilledAgain | opencas/model_routing.py:307-313 | without a usable id, normalising again changes the models if and only if a field was set to blanks only and its fallback is there on the second pass |
| ModelRouting.DefaultMoving | opencas/model_routing.py:226-254 | an input of the first family |
| ModelRouting.BlankMoving | opencas/model_routing.py:307-313 | an input of the second family |
| ModelRouting.EffortsSettle | opencas/model_routing.py:257-284 | the healed efforts are a fixed point of normalising and healing |
| ModelRouting.ResolvesAvailable | opencas/model_routing.py:102-120 | a sanitised routing resolves every tier to an available model for every default |
| ModelRouting.SanitizedTiers | opencas/model_routing.py:102-120 | each tier of a sanitised routing resolves to its own field: in single mode the one model, in tiered mode the model its own setting names, or else the standard one, and for extra high the high one |
| ModelRouting.ResolveExactly | opencas/model_routing.py:208-223 | a setting resolves to the available id it names: itself, or without a provider of its own the only id that ends with it behind a slash |
| ModelRouting.DefaultExactly | opencas/model_routing.py:226-254 | the default is what the first setting in the mode's order gives that names an available id, or the first available id |
| ModelRouting.EffortsOwn | opencas/model_routing.py:53-100 | every configured effort is kept but the light one of a single-mode broadcast, which becomes low; a lane without one takes that of its fallback |
| ModelRouting.SanitizedSafe | opencas/model_routing.py:287-330 | with a usable id, default and fields are drawn from the list, every tier resolves inside it and the routing is a fixed point for every default; without one, every field is one of the ids given, or none |
| PhoneMenus.DedupeOptions | opencas/phone_config.py:247-261 | the options kept have distinct digits and distinct keys, the first of each winning |
| PhoneMenus.DedupeMenus | opencas/phone_config.py:311-323 | the loop keeps the first menu of every key and drops menus without one |
| PhoneMenus.DedupeKeepsKeys | opencas/phone_config.py:311-323 | deduplicating keeps every non-empty key, once, so it breaks no reference |
| PhoneMenus.DedupeKeepsFirst | opencas/phone_config.py:311-323 | what is kept is the first menu of each key |
| PhoneMenus.ValidateMenuReferences | opencas/phone_config.py:325-336 | validation fails exactly when a submenu option names no defined menu, and repairs the default and owner keys |
| PhoneMenus.ValidationValidates | opencas/phone_config.py:325-336 | what validation accepts has defined targets, a defined default key unless it is empty, and a defined owner key or none |
| PhoneMenus.RepairsOnlyBroken | opencas/phone_config.py:325-336 | validation changes a key only when it is undefined: the default to the first menu, the owner key to none |
| PhoneMenus.StartExactly | opencas/phone_lane_policy.py:51-55 | a session started in the owner's menu mode stands where a PIN leads, one started for screening in the configured default menu |
| PhoneMenus.ChoiceExactly | opencas/phone_lane_policy.py:72-118 | a choice takes the option of that key in the session's menu, and only an open menu has options |
| PhoneMenus.NextStands | opencas/phone_lane_policy.py:50-118 | accepted and refused stream starts, PIN success, menu choices and reprompts never lead to an undefined menu, nor an open session to a menu mode without one |
| PhoneMenus.MenusClosedExactly | opencas/phone_lane_policy.py:50-118 | every reachable open session in a menu mode stands in a defined menu, and no session names an undefined one, if and only if the configuration has a menu |
| SearchTree.Node.InsertRecursive | scripts/bst_implementation.py:71-89 | inserting below a node keeps the tree a search tree and puts the value at its place in the traversal, once |
| SearchTree.Node.InOrderRecursive | scripts/bst_implementation.py:144-155 | the traversal appends the subtree's values in order |
| SearchTree.SearchRecursive | scripts/bst_implementation.py:106-125 | searching decides membership in the traversal |
| SearchTree.BinarySearchTree.Insert | scripts/bst_implementation.py:53-69 | inserting updates the tree in place to the traversal with the value added |
| SearchTree.BinarySearchTree.Search | scripts/bst_implementation.py:91-104 | the search result is membership |
| SearchTree.BinarySearchTree.InOrderTraversal | scripts/bst_implementation.py:127-142 | the traversal is strictly increasing |
| SearchTree.TraversalIncreases | scripts/bst_implementation.py:39-41 | the bounds at the nodes make the whole traversal increase |
| SearchTree.Build | scripts/bst_implementation.py:53-89 | any sequence of inserts leaves a tree with exactly those values, each once |

## Where documentation and code differ

- `get_latest(n)` is documented as the n most recent entries; for n below 1 it returns one entry. The
  model follows the code.
- The registry's backward reader is documented as the forward reader in reverse; with carriage returns
  inside lines it is not. The exact condition is proved.

## Left out

- Wall-clock durations, marks, UUIDs, secrets and time zones: time is an integer, with a separate
  calendar day where a day budget needs one; phase durations are not in the diagnostics modelled here.
- Network, websocket, SQLite, ffmpeg, speech recognition and synthesis, LLM calls: their answers are
  parameters. A file is a byte sequence or a sequence of entries, a table a sequence of rows.
- AffectiveRegistry.ReadJsonl: an undecodable file fails as a whole; entries a consumer saw before the
  decoding error are not modelled.
- RegistryWriter.Writer.Append: a write happens completely or not at all, and no other process holds the
  file's lock.
- PhoneSession.PhoneSessionMachine.constructor: lower-casing covers the ASCII letters only.
- PhoneSession.PhoneSessionMachine.OnMenuChoice: lower-casing covers the ASCII letters only.
- PhoneSession.PhoneSessionMachine.OnOwnerPinVerified: lower-casing covers the ASCII letters only.
- PhoneReplay.AnalyzePhoneCallTimeline: phase durations and timeline offsets are not modelled.
- PhoneReplayProof.ReplayAgrees: a trace call and its machine call are one step and the session starts
  once; what happens otherwise is stated in `phone_live.dfy` and `phone_drift.dfy`.
- PhoneDrift.RouteFailureReplay: covers a choice made by key; no error event follows a spoken one whose
  route raises, so the replay shows the wrong state until the next traced transition.
- ContactSafety.RunSafe: candidates are considered one after the other; a delivery that raises after
  reaching the owner leaves no log entry, so that contact starts no cooldown, and concurrent calls of
  the service are not modelled. Tick candidates carry stripped source ids, as the collector makes them.
- SpeechEndpointer.RunSession: whether a chunk contains speech is part of the chunk; a chunk whose
  barge-in interruption raises is not part of the stream.
- OwnerPin.RunIsExpectedExactly: the digit handler does not look at `closed`; that no key arrives behind
  the closing one relies on the websocket the session has closed. The configured PIN is held fixed
  during a call.
- TelegramPoll.AtLeastOnce: update ids arrive in ascending order, the server delivers a prefix of the
  updates it still has at or above the offset, and forgets none that no request has confirmed. Each
  service starts from the file; one that is stopped never polls again.
- MobileBridge pairing and authentication: they would add lookups without a property across calls.
- ChatTurns: claim and release are single steps because their critical sections never suspend; the
  records hold only the message preview.
- PhoneMenus.MenusClosedExactly: the configuration is held fixed during a call.
- The phone webhooks, Telegram commands, spoken-response text rules, affective heuristics, scenario
  scripts and dashboards: thin wrappers or keyword tables.
