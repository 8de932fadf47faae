# Verified model of the IOT server's shared state and of its client protocol

The server mirrors device attributes between client processes and a cloud "device shadow". This project models that
shared state in Dafny, in the form the C++ code has, and proves what it keeps: objects with mutable fields and loops for
the three classes, state machines over atomic steps where several threads or processes take part.

| file | content |
|---|---|
| `CStrings.dfy`, `Decimal.dfy`, `NameOrder.dfy`, `Options.dfy` | C strings and the library functions used on them (ISO/IEC 9899:2011, sections 7.21.6.5, 7.22.1.2 and 7.24), the order of `std::string` |
| `CommandScanner.dfy` | the scanner for cloud commands and the language it accepts |
| `FollowRegistry.dfy` | the follow registry over a history of calls: relation, order, dispatch |
| `AnswerCollection.dfy` | what the answer-collecting loop leaves in its buffer |
| `Service.dfy` | the service object with its heap-allocated follower vectors; it refines the registry |
| `ShadowModel.dfy` | the device shadow as a state machine of API calls and cloud events |
| `ShadowAgreement.dfy`, `ShadowPush.dfy`, `ShadowPoll.dfy` | agreement with the cloud, pushes, polling and string buffers |
| `ShadowEffects.dfy` | what a single step stores, and that nothing else changes |
| `DeviceShadow.dfy` | the device shadow object on the heap; each method is a step of the state machine |
| `CloudEcho.dfy` | a value the cloud sets, from the calls that tell the followers to the poll that asks them |
| `Startup.dfy` | attributes registered while the server starts, for any number of sessions |
| `LockOrder.dfy`, `ClientCount.dfy` | deadlock freedom, and the client limit that is checked before its lock is taken |
| `ClientReplay.dfy`, `ClientJNI.dfy`, `ConnectRetry.dfy` | follow lists, crash and replay, the connection loop |
| `PollClock.dfy` | when the thread loop polls |

`dafny verify dfyconfig.toml` checks all of it.

How the pieces are tied together: the methods of `Service.IOTService` append to a ghost history of calls, and the object's
invariant says that the maps hold what `FollowRegistry.After` makes of this history, so every lemma about histories is a
fact about the object. The methods of `DeviceShadow.DeviceShadow` ensure that the object's abstract state moved by the
corresponding step of `ShadowModel`, so every lemma about runs is a fact about sequences of calls. Rounds of its thread
loop poll when `PollClock` says (`DeviceShadow.RoundsPollByClock`), and the replay by `ClientJNI.IOTClientJNI` makes of
the registry what the steps of an uninterrupted connect in `ClientReplay` make of it (`ClientReplay.ConnectReplays`,
`ClientJNI.ReplayIsReplayed`). What the environment does is a parameter: the answer of a remote `get`, the return code of a
push, the value the cloud sets, clock readings.

What the proofs show about the code, where its comments or names suggest something else:

- `callPropertyGet` says that only the first answer counts, but its loop has no `break`: later answers are laid over
  earlier ones (`AnswerCollection.CollectedByte`), and the returned length is that of the last one consulted. Two
  followers that answer "12" and "3" leave "32" (`AnswerCollection.SecondAnswerCounts`); the first answer alone decides
  exactly when the last one is the same and none in between is longer (`AnswerCollection.OnlyFirstCountsIff`).
- A string write copies only the new length, so what stands in the buffer after it stays: the old text's tail, or bytes
  a cloud write left behind the terminator. A reported string shows its value iff a NUL stands where it ends
  (`ShadowPoll.ClientWriteOverlays`).
- For the same reason a poll may mark a string on every pass for ever, with the same answers each time:
  `ShadowPoll.MarkedForeverOrNever` gives the exact condition for every buffer, `ShadowPoll.MarkedForever` is an input
  whose followers answer with different lengths, and `ShadowPoll.CloudResidueIsUnsettled` one with bytes behind the
  terminator.
- A string the cloud sets is echoed back as a change exactly when it has 256 bytes or more and somebody listens, and then
  by every poll (`CloudEcho.CloudStringIsEchoedIff`; `ShadowPoll.LongStringIsEchoed` is an input).
- A failed urgent report is not always part of the next bulk push: a later urgent report that gets through takes the
  attribute out (`ShadowPush.FailedReportDropped` is a run that shows it). `ShadowPush.FailedReportIsPushedIff` gives the exact
  condition, and `ShadowPush.FailedReportIsRetried` what holds always: that push carries the attribute's value unless it
  was delivered already.
- `MAX_CLINETS` can be exceeded by as many clients as there are concurrent callers, less one, and no more
  (`ClientCount.ClientsBounded`, `ClientCount.BoundIsReached`).
- The first client stands in for the followers of a name only if the name was never followed since the server started,
  never because its followers have gone (`FollowRegistry.DispatchTrace`).
- The timeout of the automatic reconnect does not fit the 32-bit product that computes the number of tries
  (`ConnectRetry.ReconnectTimeoutOverflows`; `ConnectRetry.TryCountIff` says which timeouts do).

## Model

| member | source | states |
|---|---|---|
| CommandScanner.ScannerLanguage | jni/server/IOT_DeviceShadow.cpp:69-113 | the scanner yields a name exactly for the messages A `"command"` B : C " name " R with the token's first occurrence at A, no colon in B, no quote or comma in C, no quote in the name, at most 63 characters of it, and a comma in the name or R |
| CommandScanner.UniqueParts | jni/server/IOT_DeviceShadow.cpp:75-103 | a message has this form in at most one way |
| CommandScanner.EveryNameCanBeSent | jni/server/IOT_DeviceShadow.cpp:93-111 | every name that fits and has no quote has a message that is accepted with that name, a C string if the name is one |
| CommandScanner.AcceptedIsScanned | jni/server/IOT_DeviceShadow.cpp:75-111 | printing a legal form and scanning it returns the name |
| CommandScanner.ScanCommand | jni/server/IOT_DeviceShadow.cpp:69-113 | the pointer hops and the copy into the zeroed buffer compute the scanned name, or none |
| CommandScanner.CopyName | jni/server/IOT_DeviceShadow.cpp:109-110 | the zeroed 64-byte buffer after `strncpy` holds exactly the bytes between the quotes, terminated |
| Decimal.AtoiOfFormatInt | jni/server/IOT_DeviceShadow.cpp:40 | reading back the printed text of a 32-bit integer gives the integer |
| Decimal.FormatIntLength | jni/server/IOT_DeviceShadow.cpp:304-305 | the text has at most 11 characters, so it fits the 32-byte buffer |
| Decimal.FormatIntIsDecimal | jni/server/IOT_DeviceShadow.cpp:40 | the text is a '-' for negative numbers and the decimal digits of the number, with no zero in front |
| Decimal.AtoiReads | jni/server/IOT_DeviceShadow.cpp:209 | reading skips white space, takes a sign and the decimal digits, and ignores the rest; a number that fits is returned as it is |
| NameOrder.LessIff | jni/server/IOT_DeviceShadow.cpp:295 | the table's order: a name comes before another iff it is a proper front part of it or has the smaller byte where they first differ |
| CStrings.Strncpy | jni/server/IOT_DeviceShadow.cpp:213 | `strncpy` of the C library on a buffer, in place |
| CStrings.StrncpyOverlays | jni/server/IOT_DeviceShadow.cpp:213 | a copy of strlen bytes lays the new text over the old one, never shortens it, and leaves zeros after it |
| FollowRegistry.ListedIffFollows | jni/server/IOT_Service.cpp:162-247 | after any history a client is in the vector of a name iff it followed the name and was not removed since |
| FollowRegistry.FollowOrder | jni/server/IOT_Service.cpp:203-247 | every vector is free of duplicates and lists its followers in the order in which they became followers |
| FollowRegistry.RemovalErases | jni/server/IOT_Service.cpp:162-192 | after any history, taking one occurrence of the client out of each vector erases it from every vector and keeps the order of the rest |
| FollowRegistry.FollowersAreClients | jni/server/IOT_Service.cpp:147-247 | on runs where removed clients make no further calls every follower is a member of m_clients |
| FollowRegistry.ClientsAreLive | jni/server/IOT_Service.cpp:147-201 | m_clients lists exactly the clients created and not removed, each once |
| FollowRegistry.ClientOrder | jni/server/IOT_Service.cpp:147-201 | m_clients lists its clients in the order of their creation |
| FollowRegistry.KnownIffEverFollowed | jni/server/IOT_Service.cpp:162-231 | a name has a vector iff it was ever followed on this server run |
| FollowRegistry.DispatchTrace | jni/server/IOT_Service.cpp:36-63 | a dispatch calls exactly the current followers that hold a callback, once each, in follow order; the first client is used iff the name was never followed, and it is the live client that was created first |
| Service.DeliveriesAreSelected | jni/server/IOT_Service.cpp:137-143 | the calls the dispatch loops make are, position by position, those DispatchTrace speaks about, with the client's own callback and the arguments given |
| Service.AnswersAreSelected | jni/server/IOT_Service.cpp:98-111 | the clients asked for a property are, position by position, those that are selected, and each gives its own answer |
| Service.AskedTrace | jni/server/IOT_Service.cpp:65-112 | a name that was ever followed is asked of its current followers with a callback, in follow order; any other of the first client, if there is one |
| AnswerCollection.CollectedByte | jni/server/IOT_Service.cpp:98-111 | each byte of the buffer comes from the last follower whose truncated answer reaches it, or keeps its initial value |
| AnswerCollection.CarriedIsLastReturned | jni/server/IOT_Service.cpp:102-103 | a failed remote call carries the text of the last answer that arrived forward |
| AnswerCollection.FirstClientFills | jni/server/IOT_Service.cpp:79-91 | the first client's answer fills the buffer's beginning, yet 0 is returned |
| AnswerCollection.AgreeingAnswers | jni/server/IOT_Service.cpp:98-111 | when all followers give the same answer, the buffer holds it truncated, and its length is returned |
| AnswerCollection.OnlyFirstCountsIff | jni/server/IOT_Service.cpp:98-111 | asking all followers amounts to asking the first one, as the comment says, iff the last effective answer is the first one and none is longer |
| AnswerCollection.SecondAnswerCounts | jni/server/IOT_Service.cpp:98-111 | two answers for which it does not: the buffer holds a text that neither follower answered |
| Service.CollectAnswers | jni/server/IOT_Service.cpp:98-111 | the loop fills the caller's buffer with the collected answers, returns their length, and leaves bytes past the size alone |
| Service.IOTService.CallPropertyGet | jni/server/IOT_Service.cpp:65-112 | the outcome for followers, for the first client (which returns 0 although it fills the buffer), for nobody, and for size 0 |
| Service.IOTService.CallPropertySet | jni/server/IOT_Service.cpp:114-145 | the calls made are one for each addressed client that holds a property callback, in order; -1 iff nobody can be addressed |
| Service.IOTService.CallCommandCB | jni/server/IOT_Service.cpp:36-63 | the same for command callbacks |
| Service.IOTService.CreateClient | jni/server/IOT_Service.cpp:147-160 | a fresh session is added iff fewer than MAX_CLINETS are there |
| Service.IOTService.RemoveClient | jni/server/IOT_Service.cpp:162-201 | the removal loops over both maps and the client vector add one removal to the history the maps refine |
| Service.RemoveFromAll | jni/server/IOT_Service.cpp:168-179 | every vector of the map loses one occurrence of the client, whatever vectors there are |
| Service.IOTService.AddFollowing | jni/server/IOT_Service.cpp:203-247 | a follow of either kind is added to the history; an unknown kind changes nothing and returns -1 |
| Service.AddFollower | jni/server/IOT_Service.cpp:213-246 | the name's vector is found or created, and the client added unless it is there; the other vectors stay |
| Service.IOTClient.RegistPropertyCB | jni/server/IOT_Service.cpp:320-330 | only the first callback is kept, and only it signals the server thread |
| Service.IOTClient.RegistCommandCB | jni/server/IOT_Service.cpp:311-318 | only the first callback is kept |
| ShadowPush.Agreement | jni/server/IOT_DeviceShadow.cpp:342-383 | after every run, whatever m_reportFlag was and however the pushes end: the value of a written attribute that is neither marked nor forced was the last one delivered, or a bulk push of the run carried it and failed, with nothing of the attribute delivered since; a mark implies a flag; the table is sorted; when bulk pushes succeed no value is lost |
| ShadowPush.CloudAgreement | jni/server/IOT_DeviceShadow.cpp:192-236 | after every run, what the storage of a written attribute holds that is neither marked nor forced is the value the cloud received last for it, or the value a failed bulk push of the run carried, with nothing of it delivered since; always the former when bulk pushes succeed |
| ShadowEffects.UnwrittenIsBlankFromStart | jni/server/IOT_DeviceShadow.cpp:238-258 | after every run an attribute that does not count as written is still zero, so the agreement leaves nothing else out |
| ShadowPush.RunTracks | jni/server/IOT_DeviceShadow.cpp:221-233 | the table's record of the last pushed value is the cloud's copy built from the payloads that got through |
| ShadowPush.LostWasCarried | jni/server/IOT_DeviceShadow.cpp:369-376 | what the table records as lost was in the payload of a bulk push that failed, and nothing of the attribute was delivered after it |
| ShadowAgreement.RunLosesNothing | jni/server/IOT_DeviceShadow.cpp:369-376 | a run whose bulk pushes all succeed records no loss |
| ShadowPush.BulkPushExact | jni/server/IOT_DeviceShadow.cpp:342-383 | a due push lists exactly the selected attributes, once each, in table order, with current values; afterwards nothing is marked or due and no value changed |
| ShadowPush.PayloadInTableOrder | jni/server/IOT_DeviceShadow.cpp:358-372 | the names of a payload increase strictly in the order of the table |
| ShadowPush.PayloadShowsCells | jni/server/IOT_DeviceShadow.cpp:358-372 | a due push carries for each selected attribute the integer or the text that its storage holds, and nothing else |
| ShadowPush.FailedReportIsRetried | jni/server/IOT_DeviceShadow.cpp:219-235 | after a failed urgent report, whatever happens before it, the next bulk push carries the attribute's value, unless a push already carried this value |
| ShadowPush.FailedReportIsPushedIff | jni/server/IOT_DeviceShadow.cpp:219-235 | a failed urgent report is part of the next bulk push iff that push is forced or every report of the attribute delivered in between is followed by a step that marks it again |
| ShadowPush.FailedReportIsPushed | jni/server/IOT_DeviceShadow.cpp:219-235 | as long as no later report of the attribute is acknowledged, a failed one is always part of the next bulk push |
| ShadowPush.SupersededReportIsNotRetried | jni/server/IOT_DeviceShadow.cpp:229-230 | a later urgent report that succeeds takes the attribute out of the next bulk push |
| ShadowPush.FailedReportDropped | jni/server/IOT_DeviceShadow.cpp:228-232 | a concrete run in which a failed urgent report is followed by no bulk push at all |
| ShadowPush.PollThenPush | jni/server/IOT_DeviceShadow.cpp:505-511 | what a poll marks is in the push of the same round, with the value the poll stored |
| ShadowEffects.AddedIsFound | jni/server/IOT_DeviceShadow.cpp:160-183 | an attribute of a valid type and positive size is in the table afterwards, blank and of its type if it was new; a known or invalid one changes nothing |
| ShadowEffects.AddKeepsEntry | jni/server/IOT_DeviceShadow.cpp:271-287 | every entry that was there before stays as it was |
| ShadowEffects.ReportStores | jni/server/IOT_DeviceShadow.cpp:192-236 | a report stores the number read or the text in front of what stands behind it, marks the attribute unless the urgent push delivered it, and changes nothing else |
| ShadowEffects.ReportedIntegerIsStored | jni/server/IOT_DeviceShadow.cpp:209 | a reported decimal integer is stored as that integer, whatever blanks stand in front and text behind |
| ShadowEffects.IntegerIsPolled | jni/server/IOT_DeviceShadow.cpp:302-316 | the number the followers answer with is stored, and the attribute marked iff it is another one than before |
| ShadowEffects.PrintedIntegerIsPolled | jni/server/IOT_DeviceShadow.cpp:308-312 | an integer the followers print is stored, and marked iff it is new |
| ShadowEffects.StringIsPolled | jni/server/IOT_DeviceShadow.cpp:318-333 | a string is marked iff the answer is another text, which is then copied in front of what stands behind it |
| ShadowEffects.PollEffects | jni/server/IOT_DeviceShadow.cpp:289-340 | the poll treats every entry by itself, leaves unmarked ones alone, and sets the flag iff it marked one |
| ShadowEffects.CloudStores | jni/server/IOT_DeviceShadow.cpp:35-67 | a cloud write stores the value and forces a report of everything; other values stay |
| ShadowEffects.CloudKeepsMarks | jni/server/IOT_DeviceShadow.cpp:35-56 | unless the attribute is local, marks and period stay, too |
| ShadowEffects.PeriodIsSet | jni/server/IOT_DeviceShadow.cpp:151-158 | the local attribute's value, read without a sign, becomes the period, and only that attribute is marked |
| ShadowEffects.BulkEffects | jni/server/IOT_DeviceShadow.cpp:342-383 | a bulk push changes marks and flags only |
| CloudEcho.ListenersAreTold | jni/server/IOT_Service.cpp:114-145 | a value the cloud sets reaches every current follower that holds a callback, and nobody else, once each, as the integer in decimal or the text, of which 255 bytes fit |
| CloudEcho.CloudIntegerIsNotEchoed | jni/server/IOT_DeviceShadow.cpp:35-56 | for every integer the cloud sets, when the clients that were called answer with the text they were given, the poll that asks the followers sees no change, and the text fits |
| ShadowPoll.IntegerIsNotEchoed | jni/server/IOT_DeviceShadow.cpp:302-316 | a poll whose answers are all the printed text of the stored integer sees no change |
| CloudEcho.CloudStringIsEchoedIff | jni/server/IOT_DeviceShadow.cpp:43-56 | for strings the poll marks the attribute iff the text has 256 bytes or more and some client followed it, was not removed since, and holds a callback; then it is unsettled, so every later poll marks it again |
| ShadowPoll.StringIsEchoedIff | jni/server/IOT_DeviceShadow.cpp:318-333 | a poll whose answers are all the stored text cut to 255 bytes sees a change iff there is an answer and the text was cut |
| ShadowPoll.LongStringIsEchoed | jni/server/IOT_DeviceShadow.cpp:43-56 | 256 characters answered with what was forwarded of them are marked, and stay unsettled |
| ShadowPoll.SecondPollMarksIff | jni/server/IOT_DeviceShadow.cpp:300-336 | with the same answers a second poll marks exactly the unsettled strings, whatever stands in their buffers: no integer, no local or unfollowed attribute; the buffer stays terminated iff a NUL stands after the copied bytes |
| ShadowPoll.CleanAnswerSettlesIff | jni/server/IOT_DeviceShadow.cpp:320-330 | when the poll's buffer holds just the last answer, a string is settled iff a NUL stands where that answer ends |
| ShadowPoll.CleanAnswerSettles | jni/server/IOT_DeviceShadow.cpp:320-330 | so it is settled when there are only zeros after a stored text no longer than the answer |
| ShadowPoll.CloudResidueIsUnsettled | jni/server/IOT_DeviceShadow.cpp:318-333 | a reachable state with bytes behind the terminator, where a longer answer does not settle the string |
| ShadowPoll.NextRoundIsQuietIff | jni/server/IOT_DeviceShadow.cpp:504-511 | after a round that polls and pushes, a poll with the same answers makes another push due iff some attribute was unsettled; it finds terminated buffers iff the first poll's copies left them so |
| ShadowPoll.StringSettlesIff | jni/server/IOT_DeviceShadow.cpp:318-333 | for every buffer, a second poll with the same answers marks the string iff the text that stands after the copied bytes differs from what the answers leave beyond the last one; the poll leaves these bytes alone |
| ShadowPoll.MarkedForeverOrNever | jni/server/IOT_DeviceShadow.cpp:289-340 | this condition decides for all later polls alike |
| ShadowPoll.MarkedForever | jni/server/IOT_DeviceShadow.cpp:318-333 | a new attribute whose two followers answer "12" and "3" is marked by every poll |
| DeviceShadow.MarkedHasFollower | jni/server/IOT_DeviceShadow.cpp:297-306 | polling marks an attribute only if it is not local and some client followed it, was not removed since, and holds a callback |
| ShadowPoll.PollOverlays | jni/server/IOT_DeviceShadow.cpp:326-330 | a string the poll marks becomes the last answer followed by the text that stood after the copied bytes; where only zeros followed the stored text, the answer laid over it |
| ShadowPoll.ClientWriteOverlays | jni/server/IOT_DeviceShadow.cpp:213 | a reported string becomes the value followed by the text that stood after it, so it shows the value iff a NUL stands there; where only zeros followed the stored text, iff it is at least as long, and zeros follow again |
| ShadowPoll.RunGrows | jni/server/IOT_DeviceShadow.cpp:207-217 | over any run of client calls the buffers stay text and zeros, and no text gets shorter |
| ShadowEffects.FreshShadow | jni/server/IOT_DeviceShadow.cpp:117-131 | a fresh server has the local attribute "report_period" only, and a period of 20000 ms |
| DeviceShadow.DeviceShadow.constructor | jni/server/IOT_DeviceShadow.cpp:123-131 | the table holds the local attribute only, and m_reportFlag is what the memory held |
| DeviceShadow.DeviceShadow.DoAddProperty | jni/server/IOT_DeviceShadow.cpp:160-183 | the attribute step of the state machine on heap entries; registered here iff it is new and m_shadow is set |
| DeviceShadow.DeviceShadow.InsertEntry | jni/server/IOT_DeviceShadow.cpp:271-287 | a new zeroed entry goes to its place in the sorted table and shares no storage with the others |
| DeviceShadow.DeviceShadow.DoReportProperty | jni/server/IOT_DeviceShadow.cpp:192-236 | mark, in-place write, flag and urgent push of one entry; all other entries stay; -1 for an unknown name |
| DeviceShadow.DeviceShadow.PushProperties | jni/server/IOT_DeviceShadow.cpp:342-383 | the bulk step; IOT_Shadow_Push is called iff the payload is not empty, with exactly this payload |
| DeviceShadow.DeviceShadow.UpdateProperties | jni/server/IOT_DeviceShadow.cpp:289-340 | the poll step over all entries in place, given the answers of the clients |
| DeviceShadow.DeviceShadow.PollString | jni/server/IOT_DeviceShadow.cpp:318-333 | comparison of whole texts, copy of the returned length only |
| DeviceShadow.DeviceShadow.SetupShadow | jni/server/IOT_DeviceShadow.cpp:432 | publishing m_shadow is the connecting step and changes nothing else |
| DeviceShadow.DeviceShadow.DefaultPropertyCB | jni/server/IOT_DeviceShadow.cpp:35-56 | everything is forced, and each addressed client with a callback gets the value as text, cut to 255 bytes |
| DeviceShadow.DeviceShadow.PeriodPropertyCB | jni/server/IOT_DeviceShadow.cpp:58-67 | everything is forced, and the value, read without a sign, becomes the period |
| DeviceShadow.DeviceShadow.OnCloudSet | jni/server/IOT_DeviceShadow.cpp:35-67 | the cloud's write and its callback are the cloud step of the state machine, and the calls are those of the default callback, none for a local attribute |
| DeviceShadow.DeviceShadow.UpdateReportPeriod | jni/server/IOT_DeviceShadow.cpp:151-158 | the period is set and the local attribute marked |
| DeviceShadow.DeviceShadow.OnCommand | jni/server/IOT_DeviceShadow.cpp:69-113 | the scanned name is dispatched to its followers with the whole message, and nothing else is |
| DeviceShadow.DeviceShadow.LoopRound | jni/server/IOT_DeviceShadow.cpp:504-511 | on a monotone clock, a round polls iff the period is over and then pushes, in this order |
| DeviceShadow.RoundsPollByClock | jni/server/IOT_DeviceShadow.cpp:503-511 | any sequence of rounds polls exactly when the clock's loop does, whatever happens between them as long as the period stays |
| DeviceShadow.DeviceShadow.CreateClient | jni/server/IOT_Service.cpp:147-160 | a new session leaves the attribute table alone |
| DeviceShadow.DeviceShadow.FollowProperty | jni/server/IOT_Service.cpp:279-288 | a session's follow enters the registry and the attribute table; a refused attribute does not undo the follow |
| DeviceShadow.DeviceShadow.FollowCommand | jni/server/IOT_Service.cpp:290-297 | a session's command follow enters the registry |
| Startup.NoAttributeMissed | jni/server/IOT_DeviceShadow.cpp:160-183 | in every interleaving with any number of sessions, after the register-all pass each attribute is registered or its creator still will; nothing is registered more than twice |
| Startup.WakerIsRegistered | jni/client/IOT_ClientJNI.cpp:63-90 | when the server thread has left the wait, a client signalled after its replay, its well-formed properties are in the table, and the register-all pass registers them |
| Startup.RegisteredOnlyWhenConnected | jni/server/IOT_DeviceShadow.cpp:178-180 | nothing is registered before m_shadow is published, in whatever interleaving |
| LockOrder.NoWaitCycle | jni/server/IOT_DeviceShadow.cpp:289-305 | in no reachable state, for any number of threads, do threads wait for each other's locks in a circle |
| LockOrder.BlockedImpliesProgress | jni/server/IOT_Service.cpp:254-266 | whenever a thread is blocked, a thread that holds a lock can go on, sleepers in the condition wait included |
| LockOrder.ScriptOrdered | jni/server/IOT_DeviceShadow.cpp:289-305 | every operation takes m_lockAttrs before m_lockClis, never the other way, for polls of any number of attributes |
| LockOrder.PollNests | jni/server/IOT_DeviceShadow.cpp:289-305 | a poll holds m_lockAttrs throughout and takes m_lockClis once for every attribute it asks for |
| ClientCount.ClientsBounded | jni/server/IOT_Service.cpp:147-160 | T concurrent callers never bring the client vector beyond MAX_CLINETS - 1 + T |
| ClientCount.BoundIsReached | jni/server/IOT_Service.cpp:149-158 | and some interleaving reaches that bound, for every T |
| ClientReplay.ReplayedExactly | jni/client/IOT_ClientJNI.cpp:55-93 | after any crashes, follows, connects and deaths, a connected client of the live server is listed under exactly the names its whole lists had when the steps of its last replay finished sending them, which are front parts of its duplicate-free lists |
| ClientReplay.OthersUntouched | jni/server/IOT_Service.cpp:203-247 | over any run whose steps are not about a set of sessions, these stay or stay away in every vector, and keep their order |
| ClientReplay.ConnectReplays | jni/client/IOT_ClientJNI.cpp:38-93 | the steps of an uninterrupted connect amount to creating the session and following both lists in order, and post the whole lists |
| ClientReplay.ListsOnlyGrow | jni/client/IOT_ClientJNI.cpp:153-185 | over any run that the client survives its local lists are only appended to |
| ClientReplay.ListedInCallOrder | jni/client/IOT_ClientJNI.cpp:153-185 | after any local follows the list holds every non-empty name, once, in the order of the first calls |
| ClientReplay.PostedInRun | jni/client/IOT_ClientJNI.cpp:63-85 | what is noted as sent was the whole list when a step of the client's last replay in the run finished sending it |
| ClientJNI.IOTClientJNI.FollowProperty | jni/client/IOT_ClientJNI.cpp:153-168 | the name is appended to the local list unless it is empty or there; nothing is sent |
| ClientJNI.IOTClientJNI.FollowCommand | jni/client/IOT_ClientJNI.cpp:170-185 | the same for commands, with -1 for an empty name |
| ClientJNI.IOTClientJNI.PostFollow | jni/client/IOT_ClientJNI.cpp:55-93 | the two replay loops on a live server add exactly the lists' calls to its history and the properties to its table, and set the session's callbacks |
| ClientJNI.ReplayListsExactly | jni/client/IOT_ClientJNI.cpp:63-85 | a fresh session is then listed under exactly the names of the two lists |
| ClientJNI.ReplayedAreInTable | jni/client/IOT_ClientJNI.cpp:63-74 | after a replay every acceptable property of the list is in the server's table, as it was or, if new, blank and of its type |
| ClientJNI.ReplayIsReplayed | jni/client/IOT_ClientJNI.cpp:63-85 | the replay by the client object makes of the registry what the steps of an uninterrupted connect make of it |
| ClientJNI.IOTClientJNI.Connect | jni/client/IOT_ClientJNI.cpp:95-141 | a session is created iff the service is found connected in time and has room; otherwise the server is left as it was |
| ClientJNI.IOTClientJNI.ConnService | jni/client/IOT_ClientJNI.cpp:38-53 | nothing happens when connected; otherwise a session is opened and replayed iff the service is found connected in time and has room |
| ClientJNI.IOTClientJNI.ServiceDied | jni/client/IOT_ClientJNI.cpp:143-151 | the reconnect leaves the client listed on the next server under exactly its lists, or without a proxy |
| ConnectRetry.AwaitService | jni/client/IOT_ClientJNI.cpp:95-122 | the loop stops at the first connected status and otherwise makes all its tries; the time slept is that of the unsuccessful tries |
| ConnectRetry.RetryBound | jni/client/IOT_ClientJNI.cpp:103-118 | for timeouts from 0 to 2147483 ms there are floor(timeout / 100) + 1 tries, and a failure has slept more than the timeout and at most twice the timeout plus 200 ms |
| ConnectRetry.SleptExactly | jni/client/IOT_ClientJNI.cpp:104-118 | tries before the service is found sleep 100 ms each, those that find it unconnected 200 ms |
| ConnectRetry.TryCountIff | jni/client/IOT_ClientJNI.cpp:103 | of the timeouts that are not negative, exactly those up to 2147483 ms get floor(timeout / 100) + 1 tries |
| ConnectRetry.ReconnectTimeoutOverflows | jni/client/IOT_ClientJNI.cpp:149 | the reconnect's timeout is not among them |
| PollClock.ThreadLoop | jni/server/IOT_DeviceShadow.cpp:503-511 | the loop polls exactly in the rounds whose check finds the period over |
| PollClock.PollSpacing | jni/server/IOT_DeviceShadow.cpp:503-509 | each poll begins more than a period after the previous one ended, and at most a period and the largest gap between checks after it |
| PollClock.PollsAreRounds | jni/server/IOT_DeviceShadow.cpp:506-509 | each poll begins at its round's check and ends with the clock read after it, in order |
| PollClock.NoPeriodMissed | jni/server/IOT_DeviceShadow.cpp:506-509 | no check leaves a finished period unpolled |

## Left out

- The cloud SDK (`IOT_Shadow_*`, connection parameters, certificates): a push succeeds or fails with a given code, a registration is recorded, a cloud change writes the value and calls the attribute's callback.
- Binder proxies and stubs: a remote call is a direct call that may fail. `IIOTClient.cpp:105` is taken to evaluate type before size, which C++ does not fix.
- JNI and Java glue, logging, process start-up, build files, destructors and `postShadow`, which never runs; `doReportEvent`, which only passes its message on.
- Null names, values and buffers, for which the functions return -1: names and values are sequences here. The vectors in the maps are never null, so the null checks on them are not modelled.
- ShadowModel.Legal: values must fit the attribute's declared size, and answers must leave the poll's buffer terminated; what the program does with longer ones, or with a buffer whose only terminator a copy has overwritten (`ShadowPoll.StaysTerminated`), is undefined and not modelled. An integer attribute's storage is a 32-bit cell whatever its declared size.
- Decimal.Atoi: a number outside 32 bits, whose result the standard leaves undefined, keeps its low 32 bits; nothing proved depends on it.
- ConnectRetry.TryCount: a signed overflow, which C++ leaves undefined, keeps the low 32 bits.
- DeviceShadow.DeviceShadow.DoAddProperty: memory allocation never fails here; `Startup` has that case.
- ShadowPush.Agreement: API calls are atomic. Finer interleavings are not covered: the flags are cleared after the lock is released (jni/server/IOT_DeviceShadow.cpp:378), which can erase a mark's flag set in between.
- Startup.WakerIsRegistered: without spurious wake-ups, and safety only: a signal sent before the server thread waits is lost, and the wait may then last until the next client.
- LockOrder.NoWaitCycle: client and SDK calls made while a lock is held do not call back into the server; the client processes' own locks are not included.
- ClientReplay.ReplayedExactly: each client runs one connService at a time, and hears of a crash after the replay in progress is over; calls to a live server succeed.
- The tree inside `std::map`: the attribute table is a sequence sorted by name, and the follow maps are maps whose vectors are visited in any order.
