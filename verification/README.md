# SIP harness: call legs, codecs, webhook routing and relay, verified

A Dafny model of the hard parts of a SIP test harness: one call leg shared by several goroutines, the bounded drain
of calls at the end of a test, the telephone-event sender, the static DNS responder, the WAV writers and reader, the
correlation of webhooks with tests, the queues that tests read from, some fast loops over audio and text, the archive of
recordings, dotted lookup in JSON bodies, and the TCP relay whose upstream can be swapped.

`dafny verify dfyconfig.toml` checks everything.

## How it is modelled

- Code shared by goroutines is a state (`Leg`, `World`, `Stream`, `State`, `Queue`) and a total function `Next` that
  takes one atomic step of one goroutine; a step that is not enabled changes nothing, so the sequences of events are
  the interleavings. `Run` folds `Next`. A lock-protected section is one step, a send or receive on a channel is one
  step, and everything between two such sections can be interleaved with the other goroutines.
- Objects with locked methods are classes besides (`Call`, `Registry`, `Session`, `Archiver`, `Stack`, `PacketWriter`,
  `Statistics`, `WsSession`); each method states its whole new state by the same functions, and lemmas such as
  `SettledIsARun`, `PerformedIsARun`, `SetStateOwesSweeps` and `AloneIsARun` tie the uninterrupted code to the step machines.
- Codecs are loops proved against a reference function, and the reference is proved to undo an independent encoder, or
  to be read back by an independent reader.
- Integer widths are written out: 16-bit durations, 32-bit timestamps and sizes, 64-bit indices, negation of an int16.
- Where a promise of a comment does not hold, there is a concrete run that breaks it and the exact condition under
  which it holds.

| file | models |
|---|---|
| Call.dfy, CallOperations.dfy, Recording.dfy | internal/sip/call.go: state and wake-ups, operations, recording sessions |
| Drain.dfy | internal/sip/drain.go, and Stop of internal/sip/uas.go |
| Dtmf.dfy | the telephone-event sender of internal/sip/call.go, and a receiver after RFC 4733 |
| Resolver.dfy, Responder.dfy | internal/sip/resolver.go, and a reader after RFC 1035 |
| Wav.dfy | the reader of internal/sip/call.go and the writers of internal/recording and internal/tts |
| Routing.dfy, CallbackQueue.dfy, WsStream.dfy | internal/webhook: registry and routing, callback queue, frame stream |
| Transcript.dfy, Audio.dfy | the loops of tests/verbs/helpers_test.go, Normalize, running statistics and square root |
| Archive.dfy, JsonPath.dfy, Relay.dfy | internal/recording/archive.go, internal/webhook/types.go, tests/drachtio/relay_test.go |

## Where the code and its comments differ

- setState says that it wakes all WaitState watchers (internal/sip/call.go:167); the slot holds one token, so that holds
  for one watcher only (`CallState.NoLostWakeupIffSingle`).
- Ended is not final: Answer checks the state and sets it in two steps (`CallOperations.EndIsFinalIff`).
- StartRecording says that it stops with the call (internal/sip/call.go:871); one that is past its check when the call ends
  does not, nor does one on a call that was revived after its end (`Recording.AutoStopAtEndIff`).
- drainCalls says that it never blocks longer than its total (internal/sip/drain.go:31-34); on a call that has already ended
  and in no-wait mode it calls Hangup itself (`Drain.DrainOne`).
- pumpUpToDown says that nothing from a dead connection ever reaches the UAC (tests/drachtio/relay_test.go:189-191); a chunk
  between its check and its write does (`Relay.NothingLateIff`).
- The writers store sizes in 32 bits without a check (`Wav.RoundTripIff`).
- NestedAny takes everything that is not a number for a key, but on an array it drops a minus sign and wraps large
  numbers (`JsonPath.LookupIsDescentIff`).
- A callback can be recorded in `_anon` after its call was bound, because looking up and recording are separate steps
  (`Routing.HomeOnceBoundIff`).
- WaitCallbackFor is said to return the next matching callback; when the deadline has passed and the timer of the context
  has not fired yet it returns an empty callback and no error (`CallbackQueue.NothingFoundIff`).
- The square root of the audio statistics is far from the root for ordinary levels: the silence limit of 200 in
  tests/verbs/pause_test.go:44 is in truth one of about 142.9 (`Audio.SilenceLimit`).
- More than 65535 addresses for one name wrap the answer count (`Responder.ReplyReadsBack`).
- LongestSilenceMS negates int16 samples, which leaves -32768 negative (`Audio.MisjudgedIff`).

## Model

| member | source | states |
|---|---|---|
| `CallState.EndInvariant` | internal/sip/call.go:139-174 | In every interleaving of the goroutines inside setState and WaitState: the done channel is closed exactly when the end time is set, Ended implies closed, at most one goroutine is between ending the call and stopping its media |
| `CallState.UnregisteredOnce` | internal/sip/call.go:153-166 | From any starting state and over every run: at most one close of the done channel, Ended implies closed; once nobody is inside setState, unregister and stopMedia were each run exactly as often as the channel was closed |
| `CallState.FirstEndWins` | internal/sip/call.go:150-155 | End time and end reason are those of the first call of setState(Ended) of the run, forever, whatever states follow |
| `CallState.StateIsLastSet` | internal/sip/call.go:139-146 | Whatever else goes on, the state of the leg is that of the last call of setState |
| `CallState.FirstAnswerWins` | internal/sip/call.go:147-149 | The answer time is that of the first answer of the run, forever |
| `CallState.WakeInvariant` | internal/sip/call.go:167-174 | The wake-up invariant for one waiter is kept by every step: blocked on a stale state means a token is in the slot or a setter has yet to send |
| `CallState.SingleWaiter` | internal/sip/call.go:849-865 | With one goroutine that calls WaitState as often as it likes, with any targets: a stale block is always about to end, and the loops of all its calls together are bounded by the tokens delivered, and these by four per state change |
| `CallState.LookAnswers` | internal/sip/call.go:851-858 | A look at the state ends the wait with success exactly at its target, with an error exactly at an end that is not the target, and blocks otherwise |
| `CallState.ResultWasSeen` | internal/sip/call.go:849-865 | Over every run, a wait that has returned got its result from a look that saw its target, from a look that saw another end, or from its context, for each result in turn |
| `CallState.WaitSucceeds` | internal/sip/call.go:849-865 | One goroutine waits and the leg is at its target: whatever came before, once the setters have finished one more receive and look end the wait with success |
| `CallState.WaitExpiresOrStartsAgain` | internal/sip/call.go:859-863 | A blocked wait may expire and no other; a wait that has returned may be called again for another state |
| `CallState.NoLostWakeupIffSingle` | internal/sip/call.go:849-865 | No interleaving, from any state and with any number of successive calls, ever leaves a waiter blocked on an old state with nothing left to wake it, if and only if at most one goroutine calls WaitState |
| `CallState.TwoWaitersLose` | internal/sip/call.go:167-173 | The interleaving in which two waiters and one change of state lose a wake-up |
| `CallState.WakeAlone` | internal/sip/call.go:168-173 | The four non-blocking sends, uninterrupted, leave exactly one token in the slot |
| `CallState.SettledIsARun` | internal/sip/call.go:139-174 | setState without interference is one of the interleavings: its shared result is the result of that run of steps, whatever the other goroutines are doing |
| `CallOperations.PerformedIsARun` | internal/sip/call.go:182-355 | An operation that nothing interrupts is the run of its guard and of its update, and leaves nothing pending; the seven operations of the class are proved to do exactly this to the leg |
| `CallOperations.AllowedIff` | internal/sip/call.go:182-355 | Each operation is let through exactly for its direction, its code range and the states up to its own rank |
| `CallOperations.OrdinaryCallGoesThrough` | internal/sip/call.go:182-355 | Trying, ringing, any number of 183s, then an answer or a reject, and a hangup with headers all go through and leave the leg where they should |
| `CallOperations.OneAtATime` | internal/sip/uac.go:163-171 | While an operation is past its guard no other begins; an outbound leg is answered by what Invite still has to do |
| `CallOperations.OperationsEndOnce` | internal/sip/call.go:547-595 | Over any sequence of operations with any answers of the wire: at most one BYE is sent, right after the media stopped and right before the call ends, and after the end nothing happens at all |
| `CallOperations.PerformedNeverLowers` | internal/sip/call.go:182-355 | Operations that nothing interrupts never lower the state, and none of them changes an ended call |
| `CallOperations.MonotoneUnlessOvertaken` | internal/sip/call.go:301-311 | From every state that satisfies the guard invariant, a run is monotone if and only if no operation other than a hangup or reject completes behind a BYE that arrived after its guard |
| `CallOperations.MonotoneIff` | internal/sip/uac.go:163-171 | The same for every run of a freshly created inbound or outbound leg |
| `CallOperations.EndIsFinalIff` | internal/sip/call.go:301-311 | The end of a call is final, whatever follows, if and only if no operation but a hangup or a reject is past its guard at that moment |
| `CallOperations.AnswerRevivesEndedCall` | internal/sip/call.go:302-310 | Ended is not absorbing: a BYE between the guard and the setState of Answer is undone |
| `CallOperations.Call.SetState` | internal/sip/call.go:139-174 | The new state of every field, as the settled result of the step machine that the interleavings are made of |
| `Recording.Invariant` | internal/sip/call.go:872-966 | The ownership invariant of recording sessions is kept by every step of StartRecording, StopRecording, stopMedia, setState, the grace timer and the pump |
| `Recording.SessionsAreSafe` | internal/sip/call.go:931-966 | Over any interleaving and any number of recordings: no two closers have one session, a file is closed at most once and only when its pump is done, no write reaches a closed file, the hook runs at most once and only on a closed file |
| `Recording.NothingReadIsLost` | internal/sip/call.go:968-1003 | Over every run, the file of a session and what its pump has in hand are, in order, all the bytes that its reads returned; once the pump has exited, and so when the file is closed or archived, the file is all of them |
| `Recording.PumpGoesOn` | internal/sip/call.go:971-980 | A pump goes on until its session is cancelled or a read fails |
| `Recording.CancelledPumpExits` | internal/sip/call.go:971-980 | A cancelled pump exits after the read it is in and writes what that returned |
| `Recording.FailedReadEnds` | internal/sip/call.go:977-1001 | A read that fails is the last one, and what it returned is still written |
| `Recording.ClosersEnd` | internal/sip/call.go:1301-1328 | A finished closer closed its file once and archived it exactly when a hook, an owner and a path exist; an abandoning stopMedia did neither, and that stays so forever |
| `Recording.ClosersProgress` | internal/sip/call.go:931-944 | A closer is held up by nothing but the pump, and only stopMedia may give up |
| `Recording.AbandonsIffBounded` | internal/sip/call.go:1309-1327 | A live recording that is taken may be left to a pump that does not stop if and only if stopMedia takes it |
| `Recording.AutoStopIff` | internal/sip/call.go:869-920 | On an ended leg with whatever stopMedia goroutines are still to run: once they have run, nothing is recording, in any interleaving, if and only if no StartRecording is past its state check and a recording, if any, still has a sweep to come |
| `Recording.AutoStopAtEndIff` | internal/sip/call.go:150-166 | The same said at the moment the call ends: a recording stops by itself if and only if no StartRecording is past its check and, if something is recording, this is the first end or the sweep of the first is outstanding |
| `Recording.RevivedCallIsNotSwept` | internal/sip/call.go:301-311 | A call that Answer revived after a BYE: a recording started then survives the second end for good |
| `Recording.SetStateOwesSweeps` | internal/sip/call.go:150-166 | The sweeps owed to the recordings are exactly the stopMedia goroutines that setState spawns in the wake-up machine |
| `Drain.DrainOne` | internal/sip/drain.go:69-134 | Termination of the select loop; the instant of return; what Ended and HangupErr may say; an early return means ended and hung up; Hangup issued once; and back by the deadline if and only if the loop is used or Hangup itself is back by then |
| `Drain.HangupReported` | internal/sip/drain.go:138-145 | No error is reported exactly when Hangup returned none; otherwise its own error, or what it panicked with |
| `Drain.DrainCalls` | internal/sip/drain.go:35-65 | For every completion order: one result per call in input order, each as its own drain may answer, and one Hangup per call |
| `Drain.LastIsLatest` | internal/sip/drain.go:49-65 | The whole drain is back exactly when all its goroutines are, at the instant of the last one |
| `Drain.WholeDrainBounded` | internal/sip/drain.go:35-65 | With positive limits the whole drain is back within the total, provided Hangup returns at once on a call that had already ended |
| `StackStop.LiveExactly` | internal/sip/uas.go:173-189 | The drained list is the tracked calls that are not done, each exactly at its rank among the open ones |
| `StackStop.Stack.Track` | internal/sip/uas.go:163-171 | Appends the call and ignores nil |
| `StackStop.Stack.LiveCalls` | internal/sip/uas.go:173-189 | The filter loop yields that list |
| `StackStop.Stack.Stop` | internal/sip/uas.go:203-244 | Drain, de-registration, cancel and close happen in this order, at most once, the drain with 5 s and 10 s and only if a call is live |
| `Dtmf.CodeNamesDigit` | internal/sip/call.go:1113-1127 | The event code of a digit is the position of its upper-case form in the table of section 3.2 of RFC 4733 |
| `Dtmf.SendableIff` | internal/sip/call.go:1113-1127 | The digits that can be sent are exactly 0 to 9, star, hash and A to D in either case |
| `Dtmf.ReceiverRecoversDigits` | internal/sip/call.go:1029-1110 | A receiver that groups packets by timestamp and reports at the E bit decodes exactly the upper-cased digits, for every legal string, starting timestamp and tone length, wrapped durations included |
| `Dtmf.StampMoves` | internal/sip/call.go:1094-1104 | Consecutive digits never share a timestamp, not even modulo 2^32 |
| `Dtmf.StreamAt` | internal/sip/call.go:1066-1104 | Every packet of the stream, field by field: only the first of a digit carries the marker, only the last the E bit, all share the timestamp of the digit |
| `Dtmf.DurationsExactIff` | internal/sip/call.go:1054-1058 | The 16-bit durations grow strictly, and equal the real ones, if and only if the tone is shorter than 8200 ms; then the next digit starts 320 samples after the end of the tone |
| `Dtmf.SendTone` | internal/sip/call.go:1066-1104 | One digit sends exactly its packets, or a proper prefix of them when a write fails |
| `Dtmf.SendTones` | internal/sip/call.go:1060-1106 | The digits send exactly the stream of the legal prefix, or a proper prefix of it when a write fails |
| `Dtmf.SendDTMFWithDuration` | internal/sip/call.go:1029-1110 | When each error is returned, and what has gone out in each case |
| `Resolver.ParseQuestion` | internal/sip/resolver.go:208-228 | The parsing loop computes the question at an offset, malformed requests included |
| `Resolver.ParseInvertsEncode` | internal/sip/resolver.go:208-228 | The parser undoes the encoder of sections 4.1.2 and 3.1 of RFC 1035 for every name of labels of 1 to 63 bytes, whatever precedes and follows, and reports the exact end |
| `Resolver.QuestionIff` | internal/sip/resolver.go:208-228 | On any bytes: a name is found if and only if there are labels, a closing zero and room for type and class, and then it is that name with that type and end |
| `Resolver.DottedInjective` | internal/sip/resolver.go:208-228 | Without dots inside labels the text the parser returns determines the name |
| `Resolver.ReadsResponse` | internal/sip/resolver.go:231-255 | A header, a question and records that point at its name are read back by an independent reader that follows compression pointers |
| `Responder.BuildResponse` | internal/sip/resolver.go:196-204 | The header written byte by byte is the header of the format followed by the question |
| `Responder.AppendARecord` | internal/sip/resolver.go:231-241 | Appends one A record whose name is a pointer to offset 12 |
| `Responder.AppendAAAARecord` | internal/sip/resolver.go:245-255 | Appends one AAAA record whose name is a pointer to offset 12 |
| `Responder.PutAnswerCount` | internal/sip/resolver.go:149-153 | Patching bytes 6 and 7 changes ANCOUNT and nothing else |
| `Responder.AppendMatching` | internal/sip/resolver.go:175-192 | The loop over the looked-up addresses appends the records that fit the question, in order, and counts them |
| `Responder.Handle` | internal/sip/resolver.go:130-194 | Which datagrams are answered, and the bytes of the answer |
| `Responder.ReplyReadsBack` | internal/sip/resolver.go:130-194 | Every query with a name gets a reply; the reader finds in it the same id and question and, for every answer, the queried name with its address, if and only if the 16-bit ANCOUNT can hold their number |
| `Responder.AnsweredIff` | internal/sip/resolver.go:130-142 | A datagram is answered if and only if it has a header that counts a question and a named question after it |
| `Responder.KeyIsHost` | internal/sip/resolver.go:143 | The host looked up is the labels of the name joined by dots, without the last dot, in ASCII lower case |
| `Responder.CaseDoesNotMatter` | internal/sip/resolver.go:143 | Names that differ in ASCII case only get the same answer |
| `Responder.ConfiguredHostAnswers` | internal/sip/resolver.go:143-163 | A configured host, in any case and spelt with its dots, gets one A record with its configured address, and an empty clean answer to AAAA |
| `Responder.OtherHostAnswers` | internal/sip/resolver.go:167-192 | Any other host gets the name error if the lookup fails, and otherwise the addresses of the family asked for |
| `Responder.AddressesAnswered` | internal/sip/resolver.go:175-190 | Every looked-up address is answered to exactly one of the two questions, at its rank in its family, a mapped one as its four bytes |
| `Wav.ReadTelephonyWAV` | internal/sip/call.go:1195-1249 | The chunk walk computes the reference meaning of the bytes, with each of its errors |
| `Wav.WalkChunks` | internal/sip/call.go:1212-1237 | On bytes at which a list of chunks lies, the walk means what the list of chunks means |
| `Wav.ReaderFindsLastData` | internal/sip/call.go:1212-1249 | Any well-formed file, chunks in any order among unknown ones, with a telephony fmt chunk and a data chunk, reads as the last data payload |
| `Wav.RoundTripIff` | internal/tts/deepgram.go:141-169 | The reader undoes the writers if and only if the audio has fewer than 2^32 bytes, odd and empty audio included |
| `Wav.WrapWAV` | internal/recording/archive.go:157-178 | The writer puts out the canonical file |
| `Wav.WriteThenRead` | internal/sip/call.go:1195-1249 | Writing and then reading gives back the audio if and only if it has fewer than 2^32 bytes |
| `Routing.Invariant` | internal/webhook/appws.go:80-160 | The routing invariant is kept by every step of New, Release, HTTP handlers and application sockets |
| `Routing.RoutedHome` | internal/webhook/server.go:134-237 | Over every interleaving in which a call_sid travels with one test id: a callback is in its test's session, except exactly when its handler looked for the call in vain; the index never maps to the empty id or `_anon` |
| `Routing.MissesOnlyUnbound` | internal/webhook/registry.go:53-65 | A lookup is in vain if and only if the call is not bound or the session of its test is not registered at that moment |
| `Routing.HomeOnceBoundIff` | internal/webhook/server.go:218-237 | Once a call is bound and while its session is not released, none of its callbacks goes to `_anon`, in any interleaving, if and only if no handler had already looked for it in vain |
| `Routing.BoundWhileRecordingInAnon` | internal/webhook/server.go:134-152 | The interleaving in which a callback is recorded in `_anon` although its call is bound to a registered session |
| `Routing.AloneIsARun` | internal/webhook/server.go:218-237 | sessionFor without interference is one of the interleavings, and records once |
| `Routing.FirstFrameAlone` | internal/webhook/appws.go:80-200 | The first frame of a socket without interference: the session by path, data, call or path again, in this priority; the call is bound to its test and the callback recorded there once |
| `Routing.LaterFrameAlone` | internal/webhook/appws.go:124-134 | A later frame is bound to and recorded in the session the socket already has |
| `Routing.ReleasedIsGone` | internal/webhook/registry.go:85-97 | A released session is found neither by its id nor by a call bound to it, and the other calls are untouched |
| `Routing.Registry.BindCallSid` | internal/webhook/registry.go:43-50 | The index afterwards; empty ids and `_anon` are ignored |
| `Routing.Registry.LookupByCallSid` | internal/webhook/registry.go:53-65 | Finds the session of a bound call only while it is registered |
| `Routing.Registry.New` | internal/webhook/registry.go:68-83 | Returns the registered session, or registers a new one |
| `Routing.Registry.Release` | internal/webhook/registry.go:85-90 | Drops the session and keeps the index |
| `Routing.Registry.Lookup` | internal/webhook/registry.go:92-97 | Finds the registered session |
| `Routing.Registry.SessionFor` | internal/webhook/server.go:218-237 | The registry afterwards and the session chosen |
| `Routing.Registry.ResolveAppWSSession` | internal/webhook/appws.go:175-200 | The session chosen for a socket and the registry afterwards |
| `CallbackQueue.QueueConserves` | internal/webhook/registry.go:229-273 | For every run with any number of consumers: consumed followed by pending is what was accepted, in arrival order; accepted plus errors is recorded; never more than 32 pending |
| `CallbackQueue.BurstIsKept` | internal/webhook/registry.go:229-240 | Callbacks that nobody takes meanwhile are all kept until 32 are pending, and only the others are dropped, with an error each |
| `CallbackQueue.TurnsHold` | tests/verbs/helpers_test.go:1121-1179 | After any number of turns a consumer has exactly what its turns took, and everything consumed if it is alone |
| `CallbackQueue.Session.Record` | internal/webhook/registry.go:229-240 | A full queue drops the callback and counts an error; otherwise it is appended |
| `CallbackQueue.Session.WaitCallback` | internal/webhook/registry.go:242-250 | Takes the oldest callback, or fails when the context has expired |
| `CallbackQueue.Session.WaitCallbackFor` | internal/webhook/registry.go:253-273 | One of the outcomes the turns allow, the empty callback without an error included; a match has the hook, and everything skipped before it is lost |
| `CallbackQueue.NothingFoundIff` | internal/webhook/registry.go:257-260 | An empty callback is never returned as if it were one, whatever arrives and whoever consumes, if and only if the timer of the context has fired whenever the deadline is seen to have passed |
| `CallbackQueue.LateTimerFindsNothing` | internal/webhook/registry.go:257-260 | The callbacks and turns that lead to the empty callback when the timer is late |
| `CallbackQueue.Session.WaitCallbackForCollecting` | tests/verbs/helpers_test.go:1144-1157 | Skipped followed by the match is exactly what this consumer consumed; it gives up only at a turn whose context expired or that had nothing to wait for |
| `CallbackQueue.Session.WaitCallbacksUntil` | tests/verbs/helpers_test.go:1163-1179 | Stops at the shortest prefix of what it consumed that satisfies the predicate, or at a turn whose context expired or that had nothing to wait for |
| `CallbackQueue.Session.DrainCallbacks` | tests/verbs/helpers_test.go:1121-1137 | Returns exactly what it consumed, and stops only at a turn whose context expired or that had nothing to wait for |
| `CallbackQueue.ConsumedIsAPrefix` | tests/verbs/helpers_test.go:1144-1179 | With one consumer, what a wait consumed is the stretch of the accepted callbacks after what was consumed before |
| `WsStream.StreamConserves` | internal/webhook/ws.go:342-400 | For any number of connections: reads followed by queued frames are the accepted ones, at most 256 are queued, each channel is closed at most once |
| `WsStream.BurstIsKept` | internal/webhook/ws.go:361-400 | Frames that nobody reads meanwhile are all kept until 256 are queued, and only the others are dropped |
| `WsStream.ConnectionCloses` | internal/webhook/ws.go:353-360 | A connection that ends closes both channels of an open session and loses no queued frame |
| `WsStream.NeverPanicsIffSingle` | internal/webhook/ws.go:342-358 | No run ever panics a handler, by sending on a closed channel or closing one twice, if and only if at most one connection is opened on the session |
| `WsStream.SingleRun` | internal/webhook/ws.go:353-360 | With one connection nothing is accepted after the close |
| `WsStream.WsSession.WaitWSMessage` | internal/webhook/ws.go:145-161 | For any number of connections: takes the oldest unread frame; reports the close only when every accepted frame has been read; times out only if the context expired or there was nothing to wait for |
| `WsStream.WsSession.CollectWS` | internal/webhook/ws.go:165-197 | Whichever ready branch each select takes: the result is the unread accepted frames in order, all of them unless the context expired at the turn it stopped; after the only connection has closed it is exactly the unread frames |
| `WsStream.WsSession.DrainClosed` | internal/webhook/ws.go:179-191 | After the close signal takes every queued frame |
| `Transcript.Normalize` | internal/stt/deepgram.go:175-193 | The loop computes the words of the text, joined by single spaces |
| `Transcript.NormalizeKeepsWords` | internal/stt/deepgram.go:175-193 | Normalizing keeps the words, and doing it twice is doing it once |
| `Transcript.CharacterCounts` | internal/stt/deepgram.go:176-190 | Exactly the letters and digits are kept, whatever their case, and exactly blank, tab and newline separate |
| `Transcript.NormalIff` | internal/stt/deepgram.go:175-193 | Every result is words of lower-case letters and digits between single blanks, and exactly those texts are left alone |
| `Transcript.CaseIsIgnored` | internal/stt/deepgram.go:176 | Texts that differ in case only have one normal form |
| `Transcript.NoiseIsIgnored` | internal/stt/deepgram.go:180-190 | Any other character makes no difference |
| `Transcript.GreedyStep` | tests/verbs/helpers_test.go:877-887 | Taking the leftmost occurrence keeps the placement leftmost, and if there is none nothing can be placed |
| `Transcript.GreedyIsExact` | tests/verbs/helpers_test.go:877-887 | The first phrase that the leftmost scan misses is the first one up to which no placement exists, and it misses none if and only if all can be placed |
| `Transcript.ContainsInOrder` | tests/verbs/helpers_test.go:866-887 | The greedy scan succeeds if and only if some increasing, non-overlapping choice of occurrences of all phrases exists; and the phrase it reports is the first one that cannot be placed |
| `Audio.MisjudgedIff` | tests/verbs/helpers_test.go:840-850 | A frame is misjudged if and only if it has a sample of -32768 and every other sample is below the threshold |
| `Audio.LongestSilenceMS` | tests/verbs/helpers_test.go:828-860 | Ten times the length of the longest run of silent frames: one that long exists and none is longer |
| `Audio.JudgeFrame` | tests/verbs/helpers_test.go:840-850 | The peak loop of one frame, with the negation that wraps |
| `Audio.Sqrt` | internal/sip/call.go:1435-1444 | Six Newton steps from half the value, zero for values that are not positive |
| `Audio.SixStepsBound` | internal/sip/call.go:1435-1444 | Over exact reals the result lies between the root r and r + (r/2 - 1)^2 / 32 |
| `Audio.NeverBelowHalvings` | internal/sip/call.go:1435-1444 | Six steps never get below v/128, however small the root is |
| `Audio.DecisionsWrongFromSomewhere` | tests/verbs/pause_test.go:44-46 | A comparison of the RMS with a threshold goes wrong only by reading too loud, and if it does for some mean square then for every larger one up to the square of the threshold |
| `Audio.SilenceLimit` | tests/verbs/pause_test.go:44-46 | The limit of 200 reads as exceeded for every mean square from 20412 on and for none up to 20411, although 40000 is meant |
| `Audio.Statistics.Absorb` | internal/sip/call.go:979-990 | One read adds its bytes, samples and squares to the totals and refreshes the RMS |
| `Audio.AlignedReadsAgree` | internal/sip/call.go:968-993 | If every read that another follows is even, the totals are those of the whole audio |
| `Audio.TotalsAgreeIffAligned` | internal/sip/call.go:968-993 | The totals are those of the whole audio, whatever it says, if and only if no odd read has a non-empty read after it |
| `Archive.SanitizeIsProjection` | internal/recording/archive.go:141-153 | sanitize yields a non-empty separator-free segment with no dash or dot at its ends, leaves exactly those alone, and is idempotent |
| `Archive.SanitizeKeepsWords` | internal/recording/archive.go:141-153 | The letters, digits and underscores of a name are all kept, in order; a name without any becomes "leg" |
| `Archive.SeparatorIsOneDash` | internal/recording/archive.go:141-153 | Between two clean names a slash, or any run of other unsafe characters, becomes one dash |
| `Archive.NamesDistinctIff` | internal/recording/archive.go:126-137 | Reserved names are pairwise distinct if and only if no role is another role followed by a dash and a number that role runs up to |
| `Archive.FilesSurvive` | internal/recording/archive.go:117-124 | Over every interleaving no written file disappears, for tests with distinct folders |
| `Archive.NeverWipedIff` | internal/recording/archive.go:121-124 | No run over some tests ever wipes a file it has written if and only if no two of them share a folder |
| `Archive.SharedFolderLoses` | internal/recording/archive.go:121-124 | Two tests with one folder: the first reservation of the second takes the file of the first |
| `Archive.EveryFileIntact` | internal/recording/archive.go:73-99 | Over every interleaving, with distinct folders and no clashing roles, every written file keeps its own content |
| `Archive.ContentsKeptIff` | internal/recording/archive.go:73-138 | A list of reservations of different contents keeps every written content, whatever the disk held and wherever the writes fall or fail, if and only if no two of its tests share a folder and no role looks like a numbered repetition of another |
| `Archive.Archiver.ReserveName` | internal/recording/archive.go:117-138 | The locked section does the reservation step and returns the name |
| `Archive.Archiver.ArchiveFile` | internal/recording/archive.go:73-99 | Every outcome: what is skipped, what fails before anything changes, and what a failure after the reservation has already wiped, counted and left behind |
| `JsonPath.SplitPath` | internal/webhook/types.go:147-162 | The loop computes the segments |
| `JsonPath.SplitCuts` | internal/webhook/types.go:147-162 | No segment contains a dot |
| `JsonPath.SplitKeepsText` | internal/webhook/types.go:147-162 | Splitting loses nothing but a trailing dot |
| `JsonPath.SplitOfDotted` | internal/webhook/types.go:147-162 | Splitting undoes the dotted form of any non-empty dot-free segments |
| `JsonPath.ParseIndex` | internal/webhook/types.go:108-120 | The inner loop over a segment computes the index, with a minus sign, non-digits and 64-bit wrap-around |
| `JsonPath.NestedAny` | internal/webhook/types.go:97-133 | The lookup loop, with the index arithmetic of a 64-bit int, computes the lookup function |
| `JsonPath.LookupIsDescentIff` | internal/webhook/types.go:97-133 | Dotted lookup is structural descent on every body if and only if, from the second step on, the text of each step selects the position the step means |
| `JsonPath.OrdinaryPaths` | internal/webhook/types.go:97-133 | So it is for every path of non-empty dot-free keys that do not look like an index and of positions below 2^63 |
| `JsonPath.IndicesAreRead` | internal/webhook/types.go:107-123 | Every position below 2^63 is read for what it is |
| `JsonPath.MinusIsIgnored` | internal/webhook/types.go:109-112 | A minus sign is dropped: "-5" selects element 5 and "-" element 0 |
| `JsonPath.TwoToThe64SelectsZero` | internal/webhook/types.go:119-120 | 2^64 wraps around and selects the first element |
| `Relay.Invariant` | tests/drachtio/relay_test.go:127-228 | Every step of the pumps, reconnects and teardowns keeps: connections are installed once, a superseded one stays superseded, what was sent comes in unbroken stretches, and read is sent plus at most one chunk in hand |
| `Relay.NeverCurrentAgain` | tests/drachtio/relay_test.go:127-154 | A superseded upstream never becomes current again, for any number of concurrent reconnects |
| `Relay.EachChunkOnce` | tests/drachtio/relay_test.go:167-187 | Each upstream receives one unbroken stretch of what the UAC sent; every chunk reaches exactly one of them, in order, and at most the last chunk read is missing |
| `Relay.SentWhereCurrent` | tests/drachtio/relay_test.go:167-181 | Every chunk goes to the upstream that was current when its connection was chosen, over every run |
| `Relay.AllToCurrent` | tests/drachtio/relay_test.go:165-181 | While an upstream stays current every chunk sent from then on goes to it and to no other |
| `Relay.ChunkGoesUp` | tests/drachtio/relay_test.go:171-181 | A chunk in hand reaches the current upstream if that is open and takes it |
| `Relay.ClosedGetsNothing` | tests/drachtio/relay_test.go:178-180 | A closed upstream receives nothing more, whoever still aims at it |
| `Relay.NothingLateIff` | tests/drachtio/relay_test.go:189-210 | After an upstream is superseded nothing more of it reaches the UAC, whatever follows, if and only if its pump was not between its check and its write to an open UAC socket |
| `Relay.LateBound` | tests/drachtio/relay_test.go:192-210 | And in any case at most that one chunk |
| `Relay.UpstreamIsDelivered` | tests/drachtio/relay_test.go:192-210 | For every run and every upstream the UAC has got, in order, all that was read from it but for at most one chunk |
| `Relay.CurrentIsHeard` | tests/drachtio/relay_test.go:192-210 | While an upstream stays current and nothing fails, its pump neither stops nor drops a chunk |
| `Relay.StoppedPumpIsSilent` | tests/drachtio/relay_test.go:192-210 | A pump that has stopped neither reads nor delivers anything more |
| `Relay.DeadConnectionSpeaks` | tests/drachtio/relay_test.go:189-204 | The interleaving in which a chunk of the dead connection reaches the UAC after the swap |
| `Relay.NeverForgottenIffOneReconnect` | tests/drachtio/relay_test.go:127-153 | Every connection that was ever current is current, abandoned or taken by a teardown, over every run, if and only if at most one Reconnect runs at a time |
| `Relay.NothingClosedBeforeTeardown` | tests/drachtio/relay_test.go:213-228 | No socket is closed before a teardown begins |
| `Relay.TeardownIsFinalIff` | tests/drachtio/relay_test.go:213-228 | A teardown is final, whatever follows, if and only if no reconnect is between reading the old connection and swapping |
| `Relay.TeardownClosesAll` | tests/drachtio/relay_test.go:213-228 | In that case, and with at most one Reconnect at a time, every connection there ever was is closed once the teardowns have finished |
| `Relay.TeardownFinishes` | tests/drachtio/relay_test.go:213-228 | A teardown that goes on to its end closes every socket it took and then the UAC side |
| `Relay.HangupClosesSession` | tests/drachtio/relay_test.go:182-187 | When the UAC hangs up, its pump ends and the current, the abandoned and the UAC socket are closed |
| `Relay.Session.Reconnect` | tests/drachtio/relay_test.go:127-163 | reconnect without interference is the run of its four steps |
| `Relay.Session.Teardown` | tests/drachtio/relay_test.go:213-228 | Closes the current and all abandoned sockets, and the UAC side |

## Left out

- Recording: the sessions are modelled on values because their point is the interleaving; updating a `Call` in place, the DTMF reader, the error field and the silence goroutine are not modelled.
- CallOperations.MonotoneIff: one goroutine operates on the leg besides the dialog callback; the Hangup of a drain on another goroutine is covered only because its BYE sets the same state as the dialog callback does.
- CallOperations.OperationsEndOnce: the SDP, the headers and the codec value are not modelled, only that and when they are sent or read.
- CallOperations.Call.DoReject: a negative code is refused before its reason is built, so no text for it is modelled; the texts of wrapped errors are not modelled either.
- CallState.SingleWaiter: the wait for the context is an event that may fire whenever the waiter is blocked; real time is not modelled.
- Drain.DrainOne: time is a virtual clock on which code takes no time; what a call does after Hangup is an arbitrary outcome and instant.
- Drain.WholeDrainBounded: nothing is promised for the no-wait mode, where Hangup runs on the drain's own goroutine.
- Dtmf.PacketWriter: the RTP writer is the contract that it stamps the current timestamp and then advances it; the sleep between packets, the encoding of the four payload bytes and a failing write other than by running out are not modelled.
- Dtmf.SendDTMFWithDuration: the digits are characters, without invalid UTF-8.
- Responder.Handle: the host name is lowered on ASCII letters only, and the system resolver's answer is a parameter; the socket and its deadline are not modelled.
- Resolver.ParseQuestion: the labels are bytes; a compression pointer inside a question is read as a length, as the code does.
- Wav.ReadTelephonyWAV: a size field that points past the end of the file is one outcome, `OutOfBounds`; the code slices without a check there.
- Routing.RoutedHome: needs the convention that a call_sid travels with one test id and that the first frame of an application socket identifies its test; the code does not enforce either.
- Routing: acknowledgements, scripted outcomes, validation and the text of the responses are not modelled.
- CallbackQueue: the texts of the errors and the hook scripts are not modelled; a context is an expiry that a wait may observe at any of its selects, and for WaitCallbackFor also what its clock and its timer show before each turn.
- CallbackQueue.Session.WaitCallbackFor: a wait that is not over after the given turns is taken to fail, as are the other waits; a select with nothing ready waits for the expiry.
- WsStream: WaitWSMark and the metadata field are not modelled; messages carry a number for their content.
- Transcript.Normalize: lower-casing is modelled for the characters whose lower case the loop can keep (the ASCII letters, the Kelvin sign and the dotted capital I); the speech-to-text service is not part of this model.
- Audio.SixStepsBound: over exact reals; rounding of float64 is not modelled.
- Audio.Statistics.Absorb: the sum of squares is exact, the code keeps it in a float64.
- Archive.Archiver.ArchiveFile: files are contents on a map of paths; the text of an error and a RemoveAll that fails are not modelled.
- JsonPath.NestedAny: paths are sequences of characters, without invalid UTF-8; the typed accessors beside it are one-branch wrappers.
- Relay.EachChunkOnce: a chunk is an atom; how TCP splits or joins chunks is not modelled, nor is a read that the network loses.
- The REST client, provisioning, JSON schema validation, environment, logging and the tests against a live cluster are not part of this model.
- The SIP and RTP stacks, TLS, tunnels and gorilla sockets are arbitrary events or results.
