# Verification of the collaboration server

This project models the collaboration server in Dafny and proves what it is for: documents that
several clients extend at the same time, each change accepted only at the current end of the
document and passed on to everybody else.  The model follows the code.  The protocol document the
repository links to is not part of this model, and where comments and code differ the code counts.

`dafny verify dfyconfig.toml` checks everything.

## How it is built

| file | what it holds |
|---|---|
| `Base`, `Store` | bytes, Go integers; the contract of the document databases as functions, and contention for the end of a document |
| `Protocol` | one init, append, delivery or receipt at a time, as functions on a connection and a document |
| `ProtocolRuns` | whole runs of clients that send at the end of their copies, with the hub's queue of closures: convergence |
| `FineProtocol`, `GapSteps`, `FineGaps`, `GapRuns` | whole runs in which every call is a step of its own and clients send anything: safety; what becomes of every accepted append; exactly when a client is told of everything; and runs that leave gaps |
| `OrderlySteps`, `OrderlyRuns` | such runs under the conditions that leave no gap |
| `MessageSteps`, `Refinement` | the two granularities: runs of whole messages are runs of single calls |
| `Redis`, `RedisRuns`, `RedisKeys`, `RedisLoop` | optimistic transactions; any number of them interleaved: linearizability, bounded retries, the chain of changes of a document key; the retry loop itself |
| `MemoryDb`, `SqlxDb` | the two other databases as objects, compared with the contract |
| `Codec`, `Messages`, `Framing`, `Wire`, `WireBytes` | the encoder driven by message layouts, the layouts, fragmentation, messages from end to end, and every message byte by byte |
| `Keys`, `Sessions`, `KeyRuns` | coalescing of key updates, keys and clients of a session, and client keys over whole runs |
| `Webhooks`, `HubRuns` | the event queue with its in-place loops, and runs of hub and queue together |
| `HubKeys` | client keys in the runs of the hub: for each document they are runs of `KeyRuns` |
| `Access` | permissions, and runs in which some clients may only read |
| `Server` | the connection and hub objects, whose methods are proved against the functions above |
| `Teacher`, `TeacherRuns` | the client program of the stress test, and runs of the protocol in which a client is this program |

The pattern is the same throughout.  An object of the program is a class whose methods are proved
equal to a function of the old state; a run is a list of steps of a state machine built from the
same functions; the main results are statements about every run from an initial state.  Every
lemma switches automatic induction off, so each proof is the one that is written down.

Two granularities of the append protocol are needed because the promise of a gap-free copy is
false when the calls of a handler may be separated.  There are four ways to a gap, each with a run:

- another client's append reaches the hub first, and the guard on `lastEnd` drops the older range (`GapRuns.OvertakingLeavesGap`);
- an append is accepted and passed on between a newcomer's reading of the document and its registration (`GapRuns.JoinWindowLeavesGap`);
- a client appends although it was not told of everything before (`GapRuns.BlindAppendLeavesGap`);
- a writer loses its right between the acceptance and the call to the hub (`GapRuns.LostRightLeavesGap`).

`FineGaps` accounts for every accepted append in every such run: a client is told of it, it is on
its way, or one of these skipped it.  Once nothing is on its way a client has been told of the whole
document if and only if nothing behind its snapshot was skipped (`FineGaps.WholeIffNothingSkipped`),
and runs that avoid the four skip nothing (`OrderlyRuns.OrderlyRunTellsEverything`).  `ProtocolRuns`
proves the promise for runs in which joining is one step, and so are an append, its acknowledgement
and its hand-over to the hub; clients may have any number of appends unanswered.  `Refinement` shows
that each of these runs is a run of single calls that avoids the four, in which every client is told
just what its copy and queue hold, in their order.

Where the code does less than its interface promises, there is a statement with an exact condition:

- an in-memory document key obeys compare-and-set only if nothing changes or a new key is set from version 0 (`MemoryDb.SetKeyMeetsContractIff`);
- a Redis append meets the contract only if the document exists (`Redis.AppendMeetsContractIff`), a Redis read only for the three known creation modes or a missing document (`Redis.GetMeetsContractIff`);
- a SQL key for a document that does not exist panics when set from version 0 (`SqlxDb.SqlxDb.SetDocumentKey`);
- an init message panics if the document exists, may be opened in that mode, and the offset is 2^63 or more (`Protocol.InitPanicsIff`);
- the program of the stress test goes on sending only if it is not answered that permission is missing: that answer leaves it waiting until somebody else appends (`TeacherRuns.MaySendIffNotDenied`, `TeacherRuns.ReaderIsStuck`);
- an error message decodes only if its text is as long as its error code (`Wire.ErrorSurvivesIff`);
- sending ends only if the message fits or the size limit is at least 3 (`Framing.SendEndsIff`);
- a key created again is seen only if its version is no lower than that of the announced removal (`KeyRuns.RecreatedKeyIsSeenIff`), and a replaced key only if its version is no lower than the one it replaces, and higher for a client that still holds a copy with the old one (`KeyRuns.UpdateIsSeenIff`);
- a client without the right to write changes a document by an unknown creation mode, if the document does not exist or, on Redis, differs from the data sent along (`Access.ReaderCreatesIff`), and on Redis also by an append at offset 0 of a document that does not exist (`Access.ReaderAppendsIff`).

## Model

| member | source | states |
|---|---|---|
| Store.AcceptedRangesDisjoint | socket.go:50-58 | in any list of calls, two accepted appends never claim the same byte |
| Store.ExactlyOneWinner | memorydb.go:126-133 | of any non-empty appends for the current end, in any order, the first is accepted and all others get a conflict with the new length |
| Store.NamingTheVersionSets | socket.go:61-64 | a key is stored if and only if the call names its version, or 0 for a new one; then that name has the new key, and nothing else changes |
| Protocol.InitPanicsIff | client.go:477-502 | an init message panics exactly when the document exists, the mode is not the one that demands a new document, and the offset is 2^63 or more |
| Protocol.OpeningEnds | client.go:470-503 | an init message is welcomed with all behind its offset if the document exists, reaches so far and need not be new, or was created; otherwise it is refused with the code for its case, or panics |
| Protocol.AppendIsAnswered | client.go:564-597 | each append gets one answer: an acknowledgement exactly if the data now stands at its offset at the end of the document, and otherwise nothing is written or passed on |
| Protocol.AllQueuedIffInOrder | client.go:306-312 | of disjoint offered ranges a client is queued all if and only if none lies below its last end and they come in increasing order |
| ProtocolRuns.Convergence | client.go:477-502 | after every run of clients that send at the end of their copies, with any number of appends unanswered, a client's copy, then what is queued for it, then what the hub still has for it, is the document, without a gap or a repetition |
| ProtocolRuns.ConnectSucceedsIff | client.go:470-503 | after every run, whoever connects, anew or resuming with an earlier copy, is refused only if the mode forbids it; otherwise copy and first message make up the document |
| ProtocolRuns.DropIsHarmless | client.go:307-309 | a range that the guard drops is already in the client's copy or queue |
| ProtocolRuns.NackedClientNeverWaitsInVain | stresstest.go:344-367 | after every run, when what is queued for a refused client and what the hub has for it has arrived, its copy is longer than the refused offset and it may send again |
| ProtocolRuns.ClientOffsetIsCopyLength | stresstest.go:316-366 | after every run, a client sends at the length of its copy |
| FineGaps.ToldOnceAndTruthfully | client.go:306-329 | under every interleaving of single calls and changes of permission, all ranges a client is told of are slices of the document and pairwise disjoint |
| GapRuns.OvertakingLeavesGap | client.go:578-583 | a run after which a client was told of the second byte and never of the first |
| FineGaps.EveryAppendIsAccountedFor | hub.go:158-177 | under every interleaving, of each append behind its snapshot a client is told, or it is on its way, or it was skipped, and only one of these |
| FineGaps.WholeIffNothingSkipped | client.go:306-312 | once nothing is on its way, a client has been told of the whole document if and only if no append behind its snapshot was skipped |
| OrderlyRuns.OrderlyRunTellsEverything | client.go:564-588 | nothing is skipped for a connected client if hub calls come in the order of acceptance, nobody is joining when data is accepted, writers keep their right, and who appends has been told of everything before |
| GapRuns.JoinWindowLeavesGap | client.go:102-108 | a run in which an append between the reading of the document and the registration is never told to the newcomer |
| GapRuns.BlindAppendLeavesGap | client.go:578-583 | a run in which a client's own append makes the guard drop what it was not told before |
| GapRuns.LostRightLeavesGap | client.go:572-585 | a run in which bytes are written whose sender loses its right before the hub is called, and nobody is told |
| Refinement.MessageRunsAreOrderly | client.go:564-588 | every run of whole messages and hub closures is an orderly run of single calls with the same document, clients and hub queue; from where its snapshot starts, the copy and the queue of each connected client hold just what the single calls told it, in their order, and the whole document once the hub's queue is empty |
| MessageSteps.HandleIsOrderly | client.go:572-588 | handling an append is a sequence of orderly single calls with the same result, whoever sent it and however it is answered |
| MessageSteps.DeliverIsOrderly | hub.go:158-177 | passing an append on in one step is the hub's loop over the members, one at a time |
| Redis.GetMeetsContractIff | redisdb.go:90-138 | reading or creating meets the contract exactly for the known modes or a missing document |
| Redis.AppendMeetsContractIff | redisdb.go:148-180 | appending meets the contract exactly when the document exists |
| Redis.OutsideContract | redisdb.go:90-180 | what happens in the other cases: an unknown mode overwrites, and a missing document is appended to as an empty one |
| Redis.NamingTheVersionSets | redisdb.go:204-253 | a document key is stored if and only if the call names its version, or 0 for a new one, and no other key or document changes |
| Redis.DeletingRemoves | redisdb.go:255-262 | deleting removes the document and its keys and nothing else |
| RedisRuns.Linearizable | redisdb.go:264-275 | for every interleaving with retries, all results are those of an atomic execution in one order |
| RedisRuns.EffectsGiveTheDatabase | redisdb.go:264-275 | that execution gives the database as it is |
| RedisRuns.EffectsAreTheReturnedCalls | redisdb.go:264-275 | a call has taken effect once, after its invocation, if it has returned, and not at all otherwise |
| RedisRuns.RealTimeOrder | redisdb.go:264-275 | a call that returned before another was invoked precedes it in that order |
| RedisRuns.RetriesAreBounded | redisdb.go:264-275 | with n calls no call fails more than n - 1 attempts, each failure charged to a change of the watched key |
| RedisRuns.NoAppendIsLost | redisdb.go:148-180 | what an accepted append wrote stays at its place unless the document is deleted |
| RedisKeys.DocumentKeysFormChains | redisdb.go:204-253 | for every interleaving, the accepted changes of a document key form a chain of versions that ends with the key in the database |
| RedisKeys.AcceptedIffCurrent | redisdb.go:204-253 | a returned call was accepted if and only if it named the version that the accepted changes before it had left |
| RedisLoop.Database.ExecuteWatch | redisdb.go:264-275 | the retry loop has the effect and result of one atomic operation amid what others do, within one attempt more than the rounds of interference |
| MemoryDb.Append | memorydb.go:131 | the built-in append shows old and new bytes, in place if there is room, and writes nothing before the old end |
| MemoryDb.Open | memorydb.go:96-110 | finds or creates the document in the table as the contract says, and every slice ever returned still shows its bytes |
| MemoryDb.MemoryDb.GetDocument | memorydb.go:87-111 | meets the contract and records the returned slice |
| MemoryDb.MemoryDb.AppendDocument | memorydb.go:114-134 | meets the contract, and no slice ever returned changes its visible bytes, moved or extended in place |
| MemoryDb.MemoryDb.SetDocumentKey | memorydb.go:137-155 | leaves the list and the result of the function that the next rows are about |
| MemoryDb.MemoryDb.DeleteDocument | memorydb.go:164-170 | removes document and keys, and leaves every returned slice as it is |
| MemoryDb.AcceptedIff | memorydb.go:141-154 | a call is accepted exactly if the name is not listed or its first entry has the version named, and then the key is added at the end |
| MemoryDb.SetKeyMeetsContractIff | memorydb.go:149-150 | exactly when setting a key here is the compare-and-set of the contract |
| MemoryDb.FirstVersionAlwaysAccepted | memorydb.go:141-152 | after an accepted change of a listed key, another call naming the same old version is accepted too |
| SqlxDb.SqlxDb.GetDocument | sqlxdb.go:76-116 | meets the contract |
| SqlxDb.SqlxDb.AppendDocument | sqlxdb.go:119-153 | meets the contract |
| SqlxDb.SqlxDb.SetDocumentKey | sqlxdb.go:182-220 | changes the row of that key and no other, if and only if the call names its version, or 0 for a new key of a document there is; otherwise it is a conflict, or panics exactly for a new key of a missing document |
| SqlxDb.SqlxDb.DeleteDocument | sqlxdb.go:222-225 | removes the document and, through the foreign key, its keys, and nothing else |
| Codec.ReadUint | encoder.go:229-237 | reads the big-endian number that the bytes are |
| Codec.WriteUint | encoder.go:239-245 | appends the big-endian digits, truncated to the size |
| Codec.DigitAt | encoder.go:239-245 | the digit at each place is the number shifted by the bytes behind it |
| Codec.DecodeStruct | encoder.go:141-202 | the loop over the fields computes the decoding function, with its errors and crashes |
| Codec.DecodeOne | encoder.go:149-196 | the same for one field and for the loop over list elements |
| Codec.EncodeStruct | encoder.go:204-227 | the loop appends exactly the encoding function |
| Codec.DecodedIsEncoded | encoder.go:141-202 | for every layout and message, what decodes has matching lengths and encodes to the bytes that were read |
| Codec.RoundTripAt | encoder.go:141-227 | for every well-formed layout, an encoding decodes to its values wherever it stands |
| Codec.RoundTripIffConsistent | encoder.go:136-227 | values survive encoding and decoding if and only if their length fields agree |
| Codec.NeverCrashes | encoder.go:141-202 | decoding takes no slice out of range if lengths have at most 32 bits |
| Messages.AllAreMessages | encoder.go:25-118 | every layout, the error message's included, keeps the rules that make the round trip hold |
| Messages.DecodingIsSafe | encoder.go:25-118 | decoding any message layout is safe on every input |
| Framing.Connection.SendMessage | client.go:228-262 | writes exactly the frames of the message and sets its flag byte in place |
| Framing.Connection.Read | client.go:191-218 | joins frames into the message of the reading function, closing or panicking as it says |
| Framing.FramesReadBack | client.go:191-262 | reading the frames of a message, whatever follows, gives back the message with its flag |
| Framing.ReadingEnds | client.go:191-218 | a message is read exactly from a complete run of frames; a stream that ends before gives none, and a frame that is too short or no continuation a panic |
| Framing.StreamReadsBack | client.go:191-262 | the frames of any list of messages under any workable limits read back as that list |
| Framing.FrameShape | client.go:228-262 | every frame but the last has maxSize bytes, the last 2 at least, and only it says that nothing follows |
| Framing.FrameCount | client.go:241-261 | the number of continuation frames is the least that can hold the rest |
| Framing.SendEndsIff | client.go:228-262 | sending ends if and only if the message fits or the limit is at least 3 |
| Wire.ErrorSurvivesIff | encoder.go:78-83 | the error message decodes as encoded if and only if its text is as long as its code |
| Wire.MessageTravels | client.go:228-262 | encoded, framed, joined and decoded, any consistent message comes out as it went in but for the flag |
| Wire.InitTravels | client.go:367-390 | an init message of either version arrives as it was sent |
| Wire.InitVersionsAgree | client.go:367-390 | both versions of an init message decode to the same offset, document, mode and data |
| Wire.AppendTravels | client.go:393-407 | an append of either version arrives with its offset and data |
| Wire.QueueArrives | client.go:306-361 | the other side reads and decodes exactly the queued appends, broadcasts and answers, in order |
| Wire.KeysTravel | client.go:170-184 | the keys sent to a client are the keys it reads |
| Wire.SetKeyTravels | client.go:599-605 | a request to set a key arrives as it was sent |
| WireBytes.AppendBytes | encoder.go:50-63 | the bytes of an append of either version |
| WireBytes.InitV2Bytes | encoder.go:25-35 | the bytes of an init message of version 2 |
| WireBytes.InitV3Bytes | encoder.go:37-48 | the bytes of an init message of a later version |
| WireBytes.MessageBytes | client.go:306-364 | the bytes of every message that is queued for a client, by its protocol version |
| WireBytes.ErrorBytes | encoder.go:78-83 | the bytes of an error message, in which no length of the text is sent |
| WireBytes.SetKeyBytes | encoder.go:65-76 | the bytes of a request to set a key |
| WireBytes.OneKeyBytes | encoder.go:105-111 | the bytes of one key of the key list |
| WireBytes.KeyListBytes | encoder.go:99-103 | the key list is its head and then the keys one after the other |
| WireBytes.InitV2ByPosition | client.go:367-387 | which bytes of an init message of version 2 are taken for which field, and when it is too short |
| WireBytes.InitV3ByPosition | client.go:367-390 | the same for every other init message |
| WireBytes.AppendByPosition | client.go:393-407 | the same for an append, whose first byte tells its version |
| WireBytes.SetKeyByPosition | client.go:599-605 | the same for a request to set a key |
| WireBytes.BroadcastByPosition | encoder.go:113-118 | a broadcast is what stands behind its first six bytes |
| Keys.CoalescingIsInvisible | client.go:642-669 | for every interleaving of notifications and sends, the receiver ends with what sending every update would give, and no name is queued twice |
| Sessions.SetKeyMeetsContract | hub.go:226-263 | setting a client key is compare-and-set on the table of keys, and names stay unique |
| Sessions.TombstonesAre | hub.go:120-133 | the announced removals are exactly the departing client's keys, emptied and one version on, and nothing is lost or doubled |
| Sessions.RemoveIdRemoves | hub.go:94-98 | the swap-remove takes out exactly the departing client |
| KeyRuns.NoLostUpdates | hub.go:214-266 | over every run the accepted changes of a key form a chain of versions ending with the current one |
| KeyRuns.KeyViewsConverge | hub.go:226-263 | over every disciplined run, with clients joining and leaving, each notified client knows every other client's keys exactly and of a missing key at most its removal |
| KeyRuns.RecreatedKeyIsSeenIff | hub.go:120-139 | after every disciplined run, a key created again reaches a client that knows of an earlier one, connected or still joining, exactly when its version is no lower than that of the removal |
| KeyRuns.UpdateIsSeenIff | client.go:642-669 | after every disciplined run, the replacement of a key reaches another client exactly when its version is no lower than the old one, and higher if the client has yet to be notified of a copy with the old one |
| KeyRuns.RecreatedKeyHidden | client.go:650-660 | a run in which a client never learns of the key that is in the session |
| KeyRuns.ReusedVersionHidden | client.go:108-113 | a run in which a version is reused while a client is joining, which never learns of the new value |
| KeyRuns.LowerVersionHidden | hub.go:226-247 | a run in which a key is replaced at a lower version, and the other client never learns of it |
| Webhooks.WebhookQueue.TimerPass | webhooks.go:34-58 | sends exactly the due events, keeps the others in order, and computes the time to wake up |
| Webhooks.WebhookQueue.RemoveIf | webhooks.go:72-87 | the in-place loop is the stable filter |
| Webhooks.FilterPartitions | webhooks.go:42-57 | the two parts together are the list, nothing lost or doubled |
| Webhooks.RejectIsStable | webhooks.go:72-87 | what stays keeps its order |
| Webhooks.WakeupIsEarliest | webhooks.go:39-57 | that time is the earliest remaining one, at most a day ahead |
| HubRuns.SessionsAreConsistent | hub.go:47-146 | after every run no session is empty, every connected client is listed once and under its document only, and every key has a connected owner |
| HubRuns.IdleEventsAreConsistent | hub.go:51-116 | after every run at most one event is queued per document, only without a session, and each was queued, sent or removed once |
| HubRuns.IdleEventMeansIdle | hub.go:105-116 | an event goes out only if the document had no session during the last ten seconds |
| HubRuns.NoIdleEventIsLost | hub.go:101-116 | if a document had a session and has none later in a run, an event of that time is queued or was sent |
| HubRuns.NoAddressNoEvents | hub.go:104-116 | without an address no event is ever queued |
| HubRuns.JoinKeepsOtherEvents | hub.go:51-59 | a join that starts a session takes out the idle event of its own document, and no join any other |
| HubRuns.TimerSendsWhatIsDue | webhooks.go:34-58 | a round of the timer sends exactly what is due and keeps the rest |
| HubKeys.HubRunsAreKeyRuns | hub.go:47-146 | over every run of the hub, whatever other documents do, the keys and clients of one document are those of a run of KeyRuns |
| HubKeys.HubKeyViewsConverge | hub.go:226-283 | so the clients of the hub come to know the keys of its sessions |
| HubKeys.HubLosesNoUpdates | hub.go:214-266 | and the accepted changes of each key in a session form a chain of versions up to the current one |
| HubKeys.KeyStays | hub.go:47-66 | over every run a key stays in its session until it is set again or its owner leaves, whoever joins |
| Access.AdmittedIff | client.go:434-468 | exactly who is admitted, to which document, with which rights and creation mode, and with which code all others are refused |
| Access.PartiesWereAdmitted | client.go:434-468 | over every run, whoever is connected was admitted with the right to read, or without a token where none is required, and may write exactly if the last word on its permissions says so |
| Access.ReaderCreatesIff | client.go:442-458 | exactly when a client without the right to write changes documents by its init message, on the databases that meet the contract and on Redis |
| Access.ReaderAppendsIff | client.go:572-585 | its append changes documents never on the former, and on Redis exactly at offset 0 of a missing document |
| Access.ReadersChangeNothing | client.go:564-588 | over every run that keeps clear of those cases, the documents are what the calls made with the right to write alone make of them |
| Access.KnownModesSuffice | client.go:442-458 | on the databases that meet the contract, known creation modes keep clear of them |
| Server.Client.EnqueueAppend | client.go:306-329 | the method is the function the protocol runs are built from |
| Server.Client.NotifyKeysUpdated | client.go:642-669 | the nested loops coalesce the batch into the queue |
| Server.Client.Drain | client.go:150-163 | takes everything that is queued and leaves the queues empty |
| Server.Client.NotifyLostAccess | client.go:672-678 | queues the error and marks the connection closed |
| Server.Client.NotifyPermissionChange | client.go:680-688 | sets both rights and ends access without the right to read |
| Server.Client.SettleRights | client.go:434-468 | admits exactly those with the right to read, and to write for a new document, and sets document, user and rights to those of the token |
| Server.Client.OpenDocument | client.go:470-503 | an existing document is opened exactly from an offset within it and sent from there on; every case ends as the function for init messages says |
| Server.Client.ProcessInitMessage | client.go:409-504 | the handler as a whole, for every version, token outcome, mode and offset |
| Server.Client.ProcessAppend | client.go:564-597 | database, connection and the post for the hub are those of the protocol's function |
| Server.Client.ProcessSetKey | client.go:599-627 | compare-and-set in the hub or in the database, refusal of admin keys, and when an answer is sent |
| Server.DropKeys | hub.go:120-133 | the in-place loop keeps the others' keys in order and collects the removals |
| Server.Hub.AddClient | hub.go:47-66 | is the joining step of the hub's runs: the client is added, a running session keeps its keys, and other sessions stay |
| Server.Hub.TakeOut | hub.go:90-133 | is the leaving step of the hub's runs |
| Server.Hub.RemoveClient | hub.go:90-146 | the leaving step, and every remaining client is notified of the removed keys |
| Server.Hub.Append | hub.go:158-177 | every client but the source is offered the range, and no other changes |
| Server.Hub.SetSessionKey | hub.go:198-212 | every client but the source is notified |
| Server.Hub.SetClientKey | hub.go:214-266 | compare-and-set on the session's keys, and the others are notified exactly on success |
| Server.Hub.GetClientKeys | hub.go:268-283 | returns the keys in order, and panics exactly without a session |
| Server.Hub.CheckMissedUpdate | hub.go:337-350 | offers every client the whole document, if not empty, and the keys |
| Teacher.Teacher.Write | stresstest.go:284-315 | sends at the known offset only if nothing is outstanding |
| Teacher.Teacher.Read | stresstest.go:316-371 | the offset and the flag after each message |
| Teacher.OffsetsAgree | stresstest.go:316-366 | while answers come to appends only, its offset is that of the protocol's client, with any number of appends unanswered |
| Teacher.WaitsAfterRejection | stresstest.go:344-367 | a program that waits may send again exactly when an append or an acceptance has arrived |
| TeacherRuns.ProgramSendsAtCopyLength | stresstest.go:284-371 | after every run in which a client is this program, the offset it sends at is the length of its copy, and the run is one of the protocol |
| TeacherRuns.MaySendIffNotDenied | stresstest.go:344-367 | after every such run, once nothing is on its way, the program may send if and only if it does not wait for an append that was answered with missing permission |
| TeacherRuns.WaitingEnds | stresstest.go:344-367 | after every such run, when its appends are handled and permission was not missing, what is queued for it or in the hub lets it send again |
| TeacherRuns.WriterIsNeverStuck | stresstest.go:284-371 | a program that keeps the right to write may send once nothing is on its way |
| TeacherRuns.ReaderIsStuck | stresstest.go:344-367 | a run in which the answer that permission is missing leaves the program waiting, with nothing on its way that could end it |

## Left out

- Sockets, HTTP, TLS, compression, logging and the management interface: plumbing around the messages; a connection is a sequence of frames.
- Verification of signed tokens and storage of tokens: the outcome of the lookup is a parameter.
- Deleting a document while clients are connected, and changing a user's permissions on every connection: the loops that notify each client; what one client does then is in Server.Client.
- Expiry and cleaning of documents, and the cleanup of the Redis index of users: clock-driven; the webhook queue has an abstract clock that only advances.
- SQL drivers and schemas, except for the keys' foreign key: a transaction is atomic, and an empty document is told apart from a missing one.
- Wake-ups, scheduling fairness and recovery from panics: a drain and a closure of the hub are atomic steps, and nothing is claimed about when they happen; a client that lost access need not be disconnected.
- Remote peers: they are empty stubs in this repository.
- Broadcast messages: they are covered by the wire format; the hub passes them on like appends, without the guard.
- Keys that live as long as the document, in KeyRuns: they share the queue of updates with client keys but are kept by the database, so the runs follow client keys only.
- Versions beyond 32 bits: a removal announced for the highest version would wrap around when it is sent.
- Statistics, random delays and the content of what the stress test sends.
- TeacherRuns.ProgramSendsAtCopyLength: reading the offset and sending the append are one step; the program's threads release the lock in between, so that a message may arrive there and the append go out at the offset before it.
- WireBytes.InitV3ByPosition: for messages shorter than 2^63 - 2^32 bytes, as all are in practice, and so for the other statements by position.
- HubKeys.HubKeyViewsConverge: under the discipline of versions of KeyRuns, and for clients that read the keys once, after joining, and then set keys.
- Wire.QueueArrives: not for error messages, whose fate Wire.ErrorSurvivesIff describes, nor for data of 2^58 bytes or more.
- Codec.NeverCrashes: assumes a message shorter than 2^63 - 2^32 bytes, since no slice is longer in practice.
- RedisRuns.Linearizable: commands are modelled by what they do to documents and keys; JSON text, cluster slots, expiry and network errors are not.
- RedisLoop.Database.ExecuteWatch: what other clients execute is given as a list of rounds, one between each read and its transaction; the loop of the program has no such list.
- MemoryDb.MemoryDb.GetDocument: requires, when it creates a document, that the array of the initial data is used by no document or caller already, as is the case for a message just read; times of access are left out.
- MemoryDb.MemoryDb.AppendDocument: the record that holds a document's slice is part of the table of documents, and the room the runtime adds is a parameter.
- Server.Client.ProcessInitMessage: takes the decoded fields; how they are decoded is in Wire.  It uses the SQL database, as the one whose calls meet the contract.
- Server.Client.ProcessAppend: returns the closure for the hub instead of sending it through the channel; ProtocolRuns and FineProtocol model the channel.
- Server.Client.ProcessSetKey: returns the update of a document's key that the hub is to announce; Server.Hub.SetSessionKey announces it.
- Framing.Connection.SendMessage: requires that sending ends; Framing.SendEndsIff says when it does not.
- ProtocolRuns.Convergence: holds for documents that are not deleted and handlers that are one step; FineProtocol, FineGaps and OrderlyRuns say what remains when they are not.
- KeyRuns.UpdateIsSeenIff: not for the owner of the replaced key, who is not told of its own updates and may know less.
