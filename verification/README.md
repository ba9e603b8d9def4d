# DCScan: a verified model

DCScan is a control and acquisition stack for a double-crystal spectrometer. This project models nine of
its parts in Dafny and proves, for every input and every run, what they are meant to guarantee. Where a
guarantee turns out to hold only under a condition, the condition is proved exact: an if-and-only-if, with
the failing inputs in view.

| part | files | main results |
|---|---|---|
| Framing of the byte streams | `Wire`, `Pipe`, `Queues` | chunk independence, exact deadlock bound, delivery finishes |
| RPC sessions | `Session`, `SessionProofs`, `SessionTheorems`, `SessionRuns`, `SessionProgress`, `SessionEvents`, `Endpoints` | every answer belongs to its request, order, and exactly when: all queued requests are answered, a reply is lost, a run faults, a SendSync returns, an event is delivered |
| Remote calls | `RemoteCalls` | session and codec together: what a remote call returns is the result of running the named function on the given arguments |
| Code generator and its codec | `Scopes`, `Registry` | decoder and encoder invert each other, exact conditions for correct scopes, correct names and calls with every argument set |
| Peak counter and MCA binning | `Peaks` | equality with a declarative description exactly when every clean run rises above 0, exactly when packets compose, bin accuracy, exactly which packet sizes fit an MCA event |
| Modbus CRC-16 | `Iteration`, `Crc` | table form equals the shift register, residue, errors inside n consecutive bits are all detected exactly for n up to 16 |
| PID move | `Pid` | what the three terms add up to over any calls; with proportional control the correction loop ends from every start exactly for targets in [-200, 200] and gains in [1/100, 201/101] |
| Variable store | `Database` | every read gives the last value stored, the cache is invisible exactly when coherent, the log rebuilds the table exactly when names are unambiguous |
| Acquisition service | `Acquisition`, `AcquisitionRuns` | safety of every call sequence, what runs and what is registered by the calls alone, exact fault condition, exact conservation of counts |

Code that updates state in place is a class or a method with loops, tied by its `ensures` to functions over
values; the theorems are about those functions. A step system (`Pipe.Step`, `Session.Step`,
`Acquisition.Op`, `Database.Op`) stands for the interleaving of threads and calls, and a run is any legal
sequence of steps. `Sequences` holds facts shared by several parts.

Assumptions taken from the environment: the transport is reliable and keeps order; each API call of the
store and of the acquisition service, each queue operation and each framed write is one step; results of
remote functions, counter readings, samples, clock intervals and the success of each SQL statement are
arbitrary inputs.

Points where the code and its documentation or intention differ, kept as the code has them:

- `SendAsync` stores its promise after queueing the request, so a fast reply can meet an empty slot
  (`SessionRuns.AsyncFaultReachable`); `SessionTheorems.RunFaultsIff` says in exactly which runs, and
  `SessionProgress.AllAnsweredIff` from exactly which states the queued requests are all answered.
- `localMaximum` starts at 0.0, so runs that never rise above zero are reported wrongly; see
  `Peaks.CounterExactIff`.
- The scope scan keeps one counter for each scope name; see `Scopes.NamesRightIff` and
  `Scopes.RepeatedNameLosesScope`.
- The event log writes `name=value` without quoting; see `Database.LogDeterminesTableIff`.
- The peaks of every packet of n samples fit the 128 slots of an MCA event exactly for n up to 256, and the
  program's packets have 1000; see `Peaks.SlotsFitIff` and `Peaks.SlotsCanOverflow`.
- `SendSync` accepts every operation but returns only for REQUEST: any other call waits for ever; see
  `SessionProgress.SyncReturnsIff`, `SessionTheorems.NonRequestNeverReturns` and, for a subscription,
  `SessionRuns.SubscriptionWaitsForEver`. Callers must pass REQUEST.
- An argument of the wrong type is logged and the function is called all the same, with an unset value; see
  `Registry.SoundCallIff` and `Registry.WrongTypeLeavesUnset`.
- An AI start without a voltage channel divides by zero; see `Acquisition.FaultIff` and
  `Acquisition.StartWithoutChannelFaults`.
- A counter that falls within an acquisition adds 2^64 to the counts; see `Acquisition.CountsConservedIff` and
  `Acquisition.FallingReadingAddsCounts`.

## Model

| member | source | states |
|---|---|---|
| `Wire.LittleEndianRoundTrip` | DCS_Network/src/client.cpp:272-275 | integers written as bytes in memory order read back unchanged |
| `Wire.DecodeEncode` | DCS_Network/src/message.cpp:51-69 | Alloc and SetCopyIdAndCode recover opcode, id and payload from the body a sender wrote |
| `Wire.FetchTakesFirstMessage` | DCS_Utils/include/internal.h:161-188 | if the buffer begins a stream of frames, a fetch takes exactly the first message and leaves the rest, and blocks exactly while that frame is incomplete |
| `Wire.FrameBytes` | DCS_Network/src/client.cpp:272-275 | a frame byte by byte: length of what follows, opcode, id, each number least significant byte first, then the payload |
| `Wire.FetchByLength` | DCS_Utils/include/internal.h:161-188 | what a fetch does on any buffered bytes, by their first four: taken, corrupt for the four wrapping lengths, blocked otherwise |
| `Queues.ByteQueue.constructor` | DCS_Utils/include/internal.h:134-140 | a new byte queue is empty with the given capacity |
| `Queues.ByteQueue.AddBytes` | DCS_Utils/include/internal.h:148-159 | appends the chunk exactly when it fits, otherwise changes nothing |
| `Queues.ByteQueue.FetchNextMsg` | DCS_Utils/include/internal.h:161-188 | in-place removal of the first frame agrees with the value-level fetch, including blocked and corrupt lengths |
| `Queues.ByteQueue.Count` | DCS_Utils/include/internal.h:190-196 | the number of buffered bytes |
| `Queues.SMessageQueue.Push` | DCS_Utils/include/internal.h:100-106 | appends at the back |
| `Queues.SMessageQueue.Pop` | DCS_Utils/include/internal.h:54-68 | removes the front, or gives nothing when woken empty |
| `Pipe.FetchIsNextPushed` | DCS_Utils/include/internal.h:161-188 | the message decoded next is always the next one pushed, and no length is ever corrupt |
| `Pipe.InvStep` | DCS_Network/src/client.cpp:198-207 | every send, receive, addition and fetch keeps: decoded messages re-encoded plus all bytes under way are the bytes sent |
| `Pipe.FramingIsChunkIndependent` | DCS_Utils/include/internal.h:148-188 | in every run, however the bytes are cut, decoded messages are a prefix of the pushed ones, and all of them once the pipe is empty |
| `Pipe.WorkDecreases` | DCS_Network/src/server.cpp:326-337 | every thread step decreases a measure of the work left |
| `Pipe.StuckMeansDelivered` | DCS_Utils/include/internal.h:148-188 | if frames are at most capacity - chunk + 1 bytes, threads that cannot move have delivered everything |
| `Pipe.DeliveryFinishes` | DCS_Network/src/server.cpp:326-337 | under that bound every run of thread steps is bounded, and one that cannot go on has decoded every message |
| `Pipe.DeadlockBeyondBound` | DCS_Utils/include/internal.h:152-182 | beyond the bound there is a run that strands a message |
| `Pipe.DeadlockFreeIff` | DCS_Utils/include/internal.h:152-182 | delivery never deadlocks if and only if frames are at most capacity - chunk + 1 bytes |
| `Session.PayloadSizeIff` | DCS_Network/src/message.cpp:132-171 | a request keeps its payload and gets an id exactly for sizes 1 to 65526 |
| `Session.AllocatedPayloadIs` | DCS_Network/src/message.cpp:51-57 | any other size loses a multiple of 65536 bytes |
| `SessionProofs.InvStep` | DCS_Network/src/client.cpp:115-194 | every step of callers, threads, server and client keeps the session invariant: ids unique, replies in flight carry the result of their own request, mailbox and promises consistent |
| `SessionProofs.MailboxFreeForReply` | DCS_Network/src/message.cpp:9-43 | with at most one SendSync outstanding the mailbox is empty when a SYNC_RESPONSE arrives |
| `SessionTheorems.ReachableInv` | DCS_Network/src/server.cpp:243-321 | the invariant holds in every reachable session state |
| `SessionTheorems.AnswersMatchRequests` | DCS_Network/src/message.cpp:9-49 | whatever SendSync returned or a promise received is the result of the one execution of the request with that id |
| `SessionTheorems.ExecutionOrder` | DCS_Network/src/server.cpp:246-321 | executed requests are a prefix of the queued requests, in order and without repeats, and the replies are queued in the same order |
| `SessionTheorems.AnswersAreFinal` | DCS_Network/src/message.cpp:45-49 | no later step changes an answer once given |
| `SessionTheorems.PromisesOpenUntilReply` | DCS_Network/src/message.cpp:132-153 | a promise for a REQUEST is open exactly until its reply is dispatched, and fulfilled exactly from then on |
| `SessionTheorems.CrashIffUnregistered` | DCS_Network/src/message.cpp:45-49 | NotifyPromise faults exactly when the reply is dispatched before the caller stored its promise |
| `SessionTheorems.RunFaultsIff` | DCS_Network/src/message.cpp:45-49 | a run faults if and only if one of its steps dispatches a reply whose caller has not stored its promise yet |
| `SessionTheorems.PromptRegistrationNeverFaults` | DCS_Network/src/message.cpp:148-150 | a run in which every SendAsync stores its promise directly after queueing never faults |
| `SessionTheorems.SyncRequestIff` | DCS_Network/src/message.cpp:155-169 | the opcode of a call is SYNC_REQUEST exactly for a SendSync of the operation REQUEST |
| `SessionTheorems.OnlySyncRequestsReturn` | DCS_Network/src/message.cpp:155-175 | in no reachable state has a call with another opcode returned |
| `SessionTheorems.NonRequestNeverReturns` | DCS_Network/src/message.cpp:155-175 | a SendSync of any other operation is still waiting after every further run |
| `SessionRuns.TwoCallersLoseAReply` | DCS_Network/src/message.cpp:29-43 | with two SendSync calls at once there is a run that overwrites a reply |
| `SessionRuns.NoReplyLostIff` | DCS_Network/src/message.cpp:9-43 | no reply is ever overwritten if and only if at most one SendSync is outstanding |
| `SessionRuns.AsyncFaultReachable` | DCS_Network/src/message.cpp:148-150 | one SendAsync suffices to reach the fault |
| `SessionRuns.SubscriptionWaitsForEver` | DCS_Network/src/message.cpp:155-175 | a SendSync that subscribes to an event is queued and is waiting after every further run |
| `SessionProgress.QuietMeansAnswered` | DCS_Network/src/client.cpp:127-194 | if no reply was lost, threads with nothing left to do have answered every queued request |
| `SessionProgress.WorkDecreases` | DCS_Network/src/server.cpp:246-321 | every step of a service thread decreases the work left in the session |
| `SessionProgress.EveryRequestAnswered` | DCS_Network/src/message.cpp:132-175 | from a state with one SendSync at most, frames within the bound and all promises of queued requests stored, every run of the threads is bounded and, once at rest, has answered every queued REQUEST |
| `SessionProgress.ComesToRest` | DCS_Network/src/server.cpp:246-321 | from every reachable state the threads come to rest, within the work that is left |
| `SessionProgress.AllAnsweredIff` | DCS_Network/src/message.cpp:132-153 | with one SendSync at most and frames within the bound, every run that comes to rest has answered all queued requests if and only if no queued SendAsync still has to store its promise |
| `SessionProgress.SyncReturnsIff` | DCS_Network/src/message.cpp:155-175 | from such a state with all promises stored, once the threads are at rest a queued call has returned if and only if its opcode is SYNC_REQUEST |
| `SessionProgress.SourceFramesFit` | DCS_Network/src/server.cpp:19-20 | with a 4 MiB buffer and 512-byte chunks every request frame is within the deadlock-free bound |
| `SessionProgress.SourceAllAnsweredIff` | DCS_Network/src/server.cpp:326-337 | the same equivalence as AllAnsweredIff at these constants, for one SendSync at most and server frames of at most 4096 * 1024 - 511 bytes |
| `SessionEvents.SubscriptionsFollowMessages` | DCS_Network/src/server.cpp:304-314 | in every run the server is subscribed to an event if and only if the last message it decoded about that event, opcode 7 or 9, is a subscription |
| `SessionEvents.EventsAreHeardEmissions` | DCS_Network/src/server.cpp:46-65 | in every run the event messages queued for the client are exactly the emissions made while it was subscribed, in order, numbered from 0, each the event byte followed by its data |
| `SessionEvents.ClientHearsPrefix` | DCS_Network/src/client.cpp:127-194 | the client decodes a prefix of them, in that order |
| `SessionEvents.IdsCountCalls` | DCS_Network/src/message.cpp:83-96 | the id of a call is the number of calls before it |
| `SessionEvents.OpcodesOnTheWire` | DCS_Network/src/message.cpp:132-169 | requests go out as 2 or 3, their replies come back as 5 or 6 with the same id, other operations go out as given |
| `SessionEvents.ValidityMessage` | DCS_Network/src/server.cpp:133-144 | the first message of the server byte by byte, and that the client takes the connection as valid exactly for the byte 1 |
| `Endpoints.Client.constructor` | DCS_Network/src/message.cpp:3-7 | a new client shows the initial session |
| `Endpoints.Client.SetNew` | DCS_Network/src/message.cpp:83-96 | takes the next id and advances the counter; a message without payload gets no id |
| `Endpoints.Client.SendAsync` | DCS_Network/src/message.cpp:132-153 | is the legal run SetNew, Schedule, Register of the session, in that order, with the payload cut to the size after the u16 cast |
| `Endpoints.Client.BeginSync` | DCS_Network/src/message.cpp:155-172 | is the legal run SetNew, Schedule of the session, with the payload cut to the size after the u16 cast |
| `Endpoints.Client.WaitForId` | DCS_Network/src/message.cpp:9-27 | returns exactly when the session's Return step is enabled, with its value, and empties the mailbox |
| `Endpoints.Client.NotifyPromise` | DCS_Network/src/message.cpp:45-49 | fulfils and removes the promise, or faults when there is none |
| `Endpoints.Client.Dispatch` | DCS_Network/src/client.cpp:141-190 | the client's switch refines the session's dispatch |
| `Endpoints.Client.DecodeRound` | DCS_Network/src/client.cpp:129-193 | fetch, decode and dispatch over the byte buffer are the session's ClientDecode step |
| `Endpoints.Client.DecodeLoop` | DCS_Network/src/client.cpp:127-194 | the loop ends, is a run of the session, and stops only when the next frame is incomplete or after the fault |
| `Endpoints.Server.constructor` | DCS_Network/src/server.cpp:16-20 | a new server shows the initial session |
| `Endpoints.Server.Handle` | DCS_Network/src/server.cpp:260-317 | the server's switch executes a request, echoes its id in the reply and keeps the subscriptions as the session does |
| `Endpoints.Server.DecodeRound` | DCS_Network/src/server.cpp:246-320 | fetch, decode and handle are the session's ServerDecode step |
| `Endpoints.Server.EmitEvent` | DCS_Network/src/server.cpp:46-65 | is the Emit step of the session: queues the event when the client subscribed to it, and does nothing otherwise |
| `RemoteCalls.RemoteCallAnswered` | DCS_Network/src/server.cpp:275-303 | a call that returned or whose promise was fulfilled was executed as the function the client named on the arguments it gave, and the answer is the result of that execution |
| `RemoteCalls.RemoteIsLocal` | scripts/DCSGen.py:375-397 | if the server runs the invoked functions, the answer is what the named function gives on the given arguments |
| `Registry.AssignNumbers` | scripts/DCSGen.py:598-614 | names get the numbers 1, 2, 3 and so on, without collision |
| `Registry.TagOf` | scripts/DCSGen.py:598-609 | the tag of a type is its position in the type list plus one |
| `Registry.CopyArg` | scripts/DCSGen.py:399-403 | writes tag and value at the cursor, advances it, touches nothing else |
| `Registry.CopyArgs` | scripts/DCSGen.py:643-654 | succeeds exactly when the arguments match the declared types, and then writes their encoding |
| `Registry.GetDataFromParams` | scripts/DCSGen.py:294-314 | fills the buffer with the encoding and returns its length, or throws exactly on a mismatch |
| `Registry.WhatIsWritten` | scripts/DCSGen.py:294-314 | code and exactly the declared arguments, a throw on a missing or mistyped one, and the code alone when nothing is taken or given |
| `Registry.GetParamsFromData` | scripts/DCSGen.py:347-373 | the decode loop terminates on every payload and computes the decoder |
| `Registry.EncodingLayout` | scripts/DCSGen.py:399-403 | the encoding byte by byte: function code, low byte first, then for each argument its tag, the position of its type, and its bytes |
| `Registry.UnknownTagIgnored` | scripts/DCSGen.py:347-373 | a byte that is no tag, between two arguments, does not change what is decoded |
| `Registry.CutShort` | scripts/DCSGen.py:347-373 | an argument with no byte of its value decodes to zeros, one with some but not all is read past the end |
| `Registry.DecodeInvertsEncode` | scripts/DCSGen.py:294-373 | decoding the encoding of a registered call gives the call back, in 2 bytes plus 1 + sizeof for each argument |
| `Registry.EncodeInvertsDecode` | scripts/DCSGen.py:294-373 | a payload of complete known values is the encoding of what it decodes to |
| `Registry.SoundCallIff` | scripts/DCSGen.py:261-274 | a payload of complete known values runs its function with every argument set if and only if it begins with what the encoder writes for some arguments of that signature |
| `Registry.WrongTypeLeavesUnset` | scripts/DCSGen.py:261-274 | a payload that carries a B for f(A) runs f with its argument unset |
| `Registry.RemoteCallInvokesFunction` | scripts/DCSGen.py:611-658 | encoding a call by name and executing the payload invokes that function with those arguments, all of them set |
| `Scopes.GetTokenSymbols` | scripts/DCSGen.py:472-523 | the line loop returns the calls with their types, whether the header is needed, and the events with their identifiers, under the prefixes of the flat scan |
| `Scopes.CollectIsSymbols` | scripts/DCSGen.py:498-522 | position i of the name, result and argument lists belongs to the i-th call, position i of the event lists to the i-th event |
| `Scopes.EventIdentifier` | scripts/DCSGen.py:518-522 | the identifier of an event is its scope names and its own joined by underscores |
| `Scopes.NamesAreEnclosingScopes` | scripts/DCSGen.py:485-522 | for every tree without a scope name repeated along a path the scan registers exactly the declared calls and events, in order, each under the names of its enclosing scopes, outermost first, each followed by a double colon |
| `Scopes.JoinAppend` | scripts/DCSGen.py:500-500 | joining two lists of names is joining each, with a double colon between |
| `Scopes.SymbolsOfTree` | scripts/DCSGen.py:472-523 | for such a tree the lists getTokenSymbols returns are those of its declarations |
| `Scopes.ScanFollowsTreeIff` | scripts/DCSGen.py:485-496 | the scan knows the enclosing scopes after every line if and only if no scope contains another of the same name |
| `Scopes.NamesRightIff` | scripts/DCSGen.py:485-522 | wherever registrations are inserted into a tree of scopes, the scan registers the declared tokens under their spelled-out names if and only if no scope contains another of the same name |
| `Scopes.RepeatedNameLosesScope` | scripts/DCSGen.py:485-500 | an input for which a function loses its scope |
| `Peaks.RunsExact` | DCS_Core/src/math.cpp:99-151 | the runs are exactly the maximal runs above the low threshold, in order |
| `Peaks.PeaksAreCleanRuns` | DCS_Core/src/math.cpp:99-151 | the peaks are exactly the maxima, with 1-based first index, of the maximal runs that stay at or below the high threshold |
| `Peaks.ClimbRun` | DCS_Core/src/math.cpp:126-136 | the inner loop finds the end of the run, its running maximum and whether it is discarded |
| `Peaks.StartRun` | DCS_Core/src/math.cpp:126-145 | the round that starts a run reports its peak unless it is discarded, and goes on after it |
| `Peaks.Advance` | DCS_Core/src/math.cpp:111-150 | one round of the outer loop: what it reports followed by what is then still to come is what was still to come |
| `Peaks.CountPacketCore` | DCS_Core/src/math.cpp:99-151 | the one-pass counter reports one entry for each clean run |
| `Peaks.CounterExactIff` | DCS_Core/src/math.cpp:99-151 | the counter equals the declarative peaks if and only if every clean run rises above zero |
| `Peaks.ThresholdsExactIff` | DCS_Core/src/math.cpp:99-151 | the thresholds for which that holds on every input: vlo >= 0, or vhi <= vlo |
| `Peaks.CountBound` | DCS_Core/src/math.cpp:99-151 | at most ceil(size / 2) peaks, maximizers strictly increase, heights at most vhi |
| `Peaks.PeaksCountRuns` | DCS_Core/src/math.cpp:99-151 | there are as many peaks as maximal runs above vlo without a sample above vhi |
| `Peaks.PeaksArePeaks` | DCS_Core/src/math.cpp:99-151 | the peaks are those of the clean maximal runs, each once and from left to right |
| `Peaks.RunsComposeIff` | DCS_Core/src/math.cpp:111-150 | runs of two packets join without merging if and only if a sample at the cut is at or below vlo |
| `Peaks.PeaksCompose` | DCS_Core/src/math.cpp:111-150 | across such a cut the peaks are those of both packets, the second shifted |
| `Peaks.PeaksComposeIff` | DCS_Core/src/math.cpp:111-150 | the peaks of two packets join if and only if the cut falls outside every run or both halves of the run it goes through exceed the high threshold |
| `Peaks.CounterComposesIff` | DCS_Core/src/math.cpp:111-150 | the same equivalence for what the counter returns |
| `Peaks.FillBins` | DCS_Acquisition/src/global_evts.cpp:72-85 | each slot holds the bin of its peak, at most the channel count, unused slots keep their value, and the loop stays within the slots exactly for up to 128 peaks |
| `Peaks.Bin` | DCS_Acquisition/src/global_evts.cpp:83-83 | the bin is the truncated share of the ten volt range and at most the channel count |
| `Peaks.PeaksInRange` | DCS_Acquisition/src/external_cmds.cpp:135-137 | with the thresholds of VoltageEvent every peak lies in the range the bins assume |
| `Peaks.CountBoundReached` | DCS_Core/src/math.cpp:99-151 | for every packet size some packet has ceil(size / 2) peaks |
| `Peaks.SlotsSufficeIff` | DCS_Acquisition/src/global_evts.cpp:78-84 | every packet of n samples fits a number of slots if and only if ceil(n / 2) does |
| `Peaks.SlotsFitIff` | DCS_Acquisition/src/global_evts.cpp:78-84 | every packet of n samples fits the 128 slots if and only if n is at most 256 |
| `Peaks.SlotsCanOverflow` | DCS_Acquisition/src/global_evts.cpp:78-84 | at the packet size of 1000 some packet has more peaks than slots |
| `Crc.TableIsShift8` | DCS_Acquisition/src/temperature.cpp:14-48 | each of the 256 table entries is its index shifted eight times with polynomial 0xA001 |
| `Crc.CalculateCrc16` | DCS_Acquisition/src/temperature.cpp:14-62 | the table-driven loop equals the bit-by-bit register of section 6.2.2 of the MODBUS over Serial Line guide on every byte string |
| `Crc.ResidueIsZero` | DCS_Acquisition/src/temperature.cpp:52-61 | appending the CRC low byte first leaves residue 0 |
| `Crc.TemperatureRequest` | DCS_Acquisition/src/temperature.cpp:74-89 | the request is its six bytes followed by a CRC that makes the residue 0 |
| `Crc.SerialFeedsBits` | DCS_Acquisition/src/temperature.cpp:52-61 | the byte-wise register equals feeding the line bits one by one |
| `Crc.BurstChangesCrc` | DCS_Acquisition/src/temperature.cpp:52-61 | different messages whose bits agree outside sixteen consecutive bits get different CRCs |
| `Crc.BurstLimitIff` | DCS_Acquisition/src/temperature.cpp:52-61 | every error of a message that is confined to n consecutive line bits changes the CRC if and only if n is at most 16 |
| `Crc.SeventeenBitsPass` | DCS_Acquisition/src/temperature.cpp:52-61 | the messages 00 00 00 and 03 40 01 differ within seventeen bits and have the same CRC |
| `Crc.BurstPasses` | DCS_Acquisition/src/temperature.cpp:52-61 | for 17 bits and more, whatever comes before and after, an error in the shape of the generator passes |
| `Crc.TwoByteErrorChangesCrc` | DCS_Acquisition/src/temperature.cpp:52-61 | messages that differ only inside two consecutive bytes get different CRCs |
| `Crc.ThreeByteErrorMayPass` | DCS_Acquisition/src/temperature.cpp:52-61 | two is the limit: after every beginning there are different three-byte windows with equal CRC |
| `Pid.Controller.constructor` | DCS_Core/src/pid.cpp:4-10 | gains and bounds are stored, memory, target and bias are zero |
| `Pid.Controller.SetTargetAndBias` | DCS_Core/src/pid.cpp:12-26 | a target in bounds is taken, any other becomes target 0 with bias 0 |
| `Pid.Controller.Calculate` | DCS_Core/src/pid.cpp:36-44 | the output is kp times the error plus ki times the integral plus kd times the rate of the error plus the bias, held between the bounds; integral and last error are updated |
| `Pid.CalculateAll` | DCS_Core/src/pid.cpp:36-44 | over any sequence of calls the integral grows by the sum of error times time step and every output is the written-out law |
| `Pid.DerivativeTelescopes` | DCS_Core/src/pid.cpp:41-43 | with a derivative gain only and inside the bounds, outputs times time steps add up to the gain times the whole change of the error |
| `Pid.IntegralFollowsArea` | DCS_Core/src/pid.cpp:40-43 | with an integral gain only and inside the bounds, each output is the gain times the integral |
| `Pid.ZeroStepIsLimit` | DCS_Core/src/pid.cpp:41-43 | over a zero time step a changing error gives the bound that every short enough time step gives |
| `Pid.Correct` | DCS_EngineControl/src/external_cmds.cpp:83-97 | one pass, with any gains and target, moves the stage by the clamped command rounded to six decimals |
| `Pid.MoveWrittenOut` | DCS_EngineControl/src/external_cmds.cpp:83-97 | one correction written out: error, grown integral, law between the bounds of 200, printed to six decimals |
| `Pid.Round6Nearest` | DCS_EngineControl/src/external_cmds.cpp:86-88 | the printed move is a whole number of millionths within half a millionth of the output |
| `Pid.CorrectionShrinks` | DCS_EngineControl/src/external_cmds.cpp:81-100 | every correction over tolerance decreases a measure of the error |
| `Pid.CutPerPass` | DCS_EngineControl/src/external_cmds.cpp:81-100 | for gains in [0.02, 1.98] every pass takes at least 5e-7 off the error |
| `Pid.TameSettles` | DCS_EngineControl/src/external_cmds.cpp:81-100 | from every start the loop settles within a stated number of passes |
| `Pid.OutOfBoundsNeverSettles` | DCS_Core/src/pid.cpp:12-26 | a target out of bounds is never reached from position 0 |
| `Pid.BadStartNeverSettles` | DCS_EngineControl/src/external_cmds.cpp:81-100 | for every other gain there is a start from which the loop never ends |
| `Pid.SettlesFromEverywhereIff` | DCS_EngineControl/src/external_cmds.cpp:81-106 | the loop ends from every start if and only if the target is in [-200, 200] and the gain in [1/100, 201/101] |
| `Pid.CorrectUntilSettled` | DCS_EngineControl/src/external_cmds.cpp:81-100 | the while loop of one pass, with any gains, ends at the first settled position of a motion that has one |
| `Pid.MoveAbsolute` | DCS_EngineControl/src/external_cmds.cpp:75-106 | the two passes, with any gains, make exactly the corrections up to the first settled position of a motion that has one |
| `Pid.ProportionalTrack` | DCS_Core/src/pid.cpp:36-44 | without integral and derivative gain neither clock nor memory influences the motion |
| `Pid.MoveEndsIff` | DCS_EngineControl/src/external_cmds.cpp:75-106 | a move with a proportional controller ends from every start, whatever clock and memory, if and only if the target is in [-200, 200] and the gain in [1/100, 201/101] |
| `Pid.PassesBounded` | DCS_EngineControl/src/external_cmds.cpp:81-100 | a bound on the number of corrections of such a move |
| `Database.Store.constructor` | DCS_Core/src/db.cpp:13-31 | opening a database shows its rows and log, with an empty and so coherent cache |
| `Database.Store.ReadVariable` | DCS_Core/src/db.cpp:242-254 | the value of the row, or the empty string when there is none |
| `Database.Store.LogEvent` | DCS_Core/src/db.cpp:311-332 | appends the event when the INSERT succeeds |
| `Database.Store.ReadValueString` | DCS_Core/src/db.cpp:554-569 | reads through the cache and caches only non-empty values |
| `Database.Store.ReadValuef64` | DCS_Core/src/db.cpp:539-552 | the same for numbers, with 0.0 for a missing variable |
| `Database.Store.WriteVariable` | DCS_Core/src/db.cpp:185-211 | logs creation or update and then stores, each of which may fail on its own |
| `Database.Store.WriteVariableSys` | DCS_Core/src/db.cpp:213-239 | stores without logging |
| `Database.Store.WriteValue` | DCS_Core/src/db.cpp:571-609 | writes by authority and drops the cache entry even if the write fails |
| `Database.Store.DeleteVariableInternal` | DCS_Core/src/db.cpp:268-293 | removes a variable that has a value, and says whether it did |
| `Database.Store.DeleteValue` | DCS_Core/src/db.cpp:611-629 | deletes, logs under the caller's name, and drops the cache entry even if the delete fails |
| `Database.Store.InvalidateCache` | DCS_Core/src/db.cpp:534-537 | empties the cache and nothing else |
| `Database.TransparentIff` | DCS_Core/src/db.cpp:534-629 | every sequence of calls reads what an uncached table would give if and only if no cached entry is stale |
| `Database.CoherentRun` | DCS_Core/src/db.cpp:534-629 | every run keeps the cache coherent |
| `Database.InvalidateRestores` | DCS_Core/src/db.cpp:534-537 | after InvalidateCache the cache is invisible, whatever changed the table before |
| `Database.CacheHoldsOnlyValues` | DCS_Core/src/db.cpp:539-569 | no run ever caches a missing or empty variable |
| `Database.TableHoldsLastRows` | DCS_Core/src/db.cpp:109-139 | after every run the row of a variable is that of the last write that was stored, unless a later delete removed it |
| `Database.ReadsGiveLastValue` | DCS_Core/src/db.cpp:242-254 | every read, cached or not, gives the value of that row, or the empty text |
| `Database.ReadYourWrites` | DCS_Core/src/db.cpp:554-609 | after a stored write and any calls that leave the variable alone, a read gives the value written |
| `Database.ReadAfterDelete` | DCS_Core/src/db.cpp:611-629 | after a delete that succeeded and any calls that leave the variable alone, a read gives the empty text |
| `Database.ReadFillsCache` | DCS_Core/src/db.cpp:539-569 | a read of a variable with a value leaves it in the cache until it is touched or the cache is emptied |
| `Database.LogIsExact` | DCS_Core/src/db.cpp:185-332 | the log of every run, failures and both authorities included, by the calls alone: who, what operation, what text |
| `Database.ReplayRun` | DCS_Core/src/db.cpp:185-211 | over every run of logged writes and deletes, replaying the log rebuilds the NAME to VALUE table |
| `Database.ReplayRebuildsIff` | DCS_Core/src/db.cpp:185-211 | splitting entries at the first equals sign rebuilds the table of every run over given names if and only if none contains one |
| `Database.LogDeterminesTableIff` | DCS_Core/src/db.cpp:185-197 | equal logs imply equal tables for every two runs over given names if and only if no name extends another by an equals sign |
| `Database.LogExplainsItself` | DCS_Core/src/db.cpp:185-332 | an entry is VAR_CREATE exactly when the log before it leaves the variable absent or empty, and only variables with a value are deleted |
| `Acquisition.EveryRunSafe` | DCS_Acquisition/src/external_cmds.cpp:221-459 | every run keeps: AI and CI never together, PTG only with CI, distinct hardware names, event-loop threads exactly while one runs (or at the fault) and each joined once, packets fit 1000 samples |
| `Acquisition.HardwareCount` | DCS_Acquisition/src/external_cmds.cpp:221-279 | with distinct hardware names a task has as many channels as the registry counts |
| `Acquisition.StartLoopOk` | DCS_Acquisition/src/global_evts.cpp:21-28 | starting the loop creates two threads, or three in MCA mode, and all are accounted for |
| `Acquisition.StopLoopOk` | DCS_Acquisition/src/global_evts.cpp:30-41 | stopping joins exactly the running threads, whatever the channel setting is by then |
| `Acquisition.FaultIff` | DCS_Acquisition/src/external_cmds.cpp:254-287 | a run faults if and only if one of its steps starts AI without a voltage channel |
| `Acquisition.StartWithoutChannelFaults` | DCS_Acquisition/src/external_cmds.cpp:254-280 | an AI start as the first call faults |
| `Acquisition.EveryRunBalanced` | DCS_Acquisition/src/external_cmds.cpp:163-219 | in every run, wrap-around included, counts emitted, queued, unheard and skipped balance with the readings |
| `Acquisition.CountsConservedIff` | DCS_Acquisition/src/external_cmds.cpp:163-219 | counts emitted, queued and unheard equal the clean maximal runs between 0.2 V and 10 V of the AI packets plus the last reading of each CI acquisition if and only if no reading falls within an acquisition |
| `Acquisition.FallingReadingAddsCounts` | DCS_Acquisition/src/external_cmds.cpp:163-208 | a counter that goes from 1 back to 0 breaks conservation |
| `Acquisition.SubscribedHearsAll` | DCS_Acquisition/src/external_cmds.cpp:209-213 | no count goes unheard while the client stays subscribed |
| `Acquisition.McaInOrder` | DCS_Acquisition/src/external_cmds.cpp:493-513 | over every run the packets the MCA event loop took, followed by those waiting, hold the peaks of the clean runs of exactly the samples that came while the client listened, in order |
| `Acquisition.McaPacketsInRange` | DCS_Acquisition/src/global_evts.cpp:72-85 | every packet waiting for it has its peaks in the range the bins assume |
| `AcquisitionRuns.RegisteredIff` | DCS_Acquisition/src/external_cmds.cpp:221-252 | after every run a channel is registered under a name if and only if some call registered it there with name and hardware free and no later call deleted the name |
| `AcquisitionRuns.AiRunsAsStarted` | DCS_Acquisition/src/external_cmds.cpp:254-302 | AI runs if and only if a start in an idle state with a voltage channel was not followed by a stop, and it keeps the voltage hardware registered then, its share of 1000 samples and its MCA mode |
| `AcquisitionRuns.CiRunsAsStarted` | DCS_Acquisition/src/external_cmds.cpp:358-459 | the same for CI, with the pulse train generator in use if and only if a channel for it was registered at the start |
| `AcquisitionRuns.SettingsAreLast` | DCS_Acquisition/src/external_cmds.cpp:542-552 | listeners and the MCA channel setting are what the client last said |
| `AcquisitionRuns.PacketAddsItsRuns` | DCS_Acquisition/src/external_cmds.cpp:135-142 | a packet adds to the queue of a listener its number of maximal runs above 0.2 V without a sample above 10 V |
| `Acquisition.Service.constructor` | DCS_Acquisition/src/external_cmds.cpp:31-62 | a new service is idle with 2048 MCA channels |
| `Acquisition.Service.CountVirtualChannelsOfType` | DCS_Acquisition/src/external_cmds.cpp:70-78 | the number of registered channels of the type |
| `Acquisition.Service.AddTaskChannels` | DCS_Acquisition/src/external_cmds.cpp:271-277 | the hardware names of the channels of the type |
| `Acquisition.Service.NewChannel` | DCS_Acquisition/src/external_cmds.cpp:221-247 | registers the channel exactly when neither its name nor its hardware is in use |
| `Acquisition.Service.DeleteChannel` | DCS_Acquisition/src/external_cmds.cpp:249-252 | removes the name and nothing else |
| `Acquisition.Service.StartEventLoop` | DCS_Acquisition/src/global_evts.cpp:21-28 | starts the threads and records the mode |
| `Acquisition.Service.StopEventLoop` | DCS_Acquisition/src/global_evts.cpp:30-41 | joins the threads according to the recorded mode |
| `Acquisition.Service.StartAIAcquisition` | DCS_Acquisition/src/external_cmds.cpp:254-287 | is the step StartAI, including the threads and the task that exist when it divides by zero |
| `Acquisition.Service.StopAIAcquisition` | DCS_Acquisition/src/external_cmds.cpp:289-302 | is the step StopAI |
| `Acquisition.Service.SetupPulseTrain` | DCS_Acquisition/src/external_cmds.cpp:394-416 | the pulse train generator is used exactly when a channel for it is registered or it was in use |
| `Acquisition.Service.StartCIAcquisition` | DCS_Acquisition/src/external_cmds.cpp:358-441 | is the step StartCI, which resets the last count |
| `Acquisition.Service.StopCIAcquisition` | DCS_Acquisition/src/external_cmds.cpp:443-459 | is the step StopCI |
| `Acquisition.Service.SetMCANumChannels` | DCS_Acquisition/src/external_cmds.cpp:542-552 | changes the setting and not the running threads |
| `Acquisition.Service.PushToDCSTask` | DCS_Acquisition/src/external_cmds.cpp:80-86 | appends to the queue |
| `Acquisition.Service.OnVoltageEvent` | DCS_Acquisition/src/external_cmds.cpp:118-161 | is the step VoltageEvent: the number of peaks of the packet for a DCS listener and the peaks themselves for an MCA listener |
| `Acquisition.Service.OnCountEvent` | DCS_Acquisition/src/external_cmds.cpp:163-219 | queues the difference modulo 2^64 to the previous reading when the client listens, and keeps the reading |
| `Acquisition.Service.GetLast` | DCS_Acquisition/src/external_cmds.cpp:471-491 | takes the front of the queue, or gives the marker |
| `Acquisition.Service.DcsRound` | DCS_Acquisition/src/global_evts.cpp:44-60 | emits the front of the queue unless it equals the marker |
| `Acquisition.Service.McaRound` | DCS_Acquisition/src/global_evts.cpp:62-89 | takes the oldest packet and fills the slots with the bins of its peaks, as far as there are slots; an empty wake-up changes nothing |

## Left out

- Sockets, login, cryptography, session start and stop, and shutdown through notify_unblock: one running session is modelled.
- Subscriptions to ids beyond the registered events, which the source ignores; no such event is ever emitted.
- The four writes of one frame are one step, because each direction has a single writer at a time.
- The message id counter is a natural number below 2^64; its wrap-around is not modelled.
- Endpoints.Client.SendAsync: requires that the payload size is positive after the u16 cast; for the other sizes the source queues a message with indeterminate opcode and id.
- Endpoints.Client.BeginSync: the same.
- Endpoints.Client.Dispatch: does not call the event callbacks of the client, which are user code and fault when an event arrives after its callback was removed.
- Pid.MoveAbsolute: requires that the motion reaches a settled position, because the source loops for ever otherwise; for proportional control `Pid.MoveEndsIff` says exactly when, for other gains no such condition is given.
- Pid.CorrectUntilSettled: the same.
- Pid.Correct: requires a positive time step, because the loop sleeps at least 50 ms between two corrections.
- Floating-point rounding: gains, positions, samples and bins are exact reals, and only the six-decimal text of the move command is rounded.
- The PID registry with its working flags and the status events of a motion.
- Registry.GetDataFromParams: requires a buffer long enough for the encoding, as the source's callers provide 1024 bytes unchecked.
- Text-level parsing in the generator (splitting a line into tokens, forward declarations).
- SQL text quoting, column names used as variable names, multi-row queries, users and passwords; a failing SELECT is not modelled.
- Acquisition.Service.StartCIAcquisition: does not say which of several counter or pulse train channels the task uses, because the source only warns and takes the first by name.
- Acquisition.Service.OnVoltageEvent: does not show the clinometer queue, which nothing reads, nor the raw samples that are emitted.
- Acquisition.Service.OnCountEvent: shows the count difference only; time stamps, angles, temperatures and the change within the packet are copied inputs.
- Sample rates and time stamps of an acquisition.
- Lost wake-ups between the stop signal and the wait of an event loop: a stop is one step.
- The disabled peak counter, the console, the device drivers and the memory utilities add no harder member.
