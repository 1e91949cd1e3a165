# A verified model of Starnet

Starnet is an actor runtime: services with private message queues, run by a pool of worker threads, each service a Lua state with a coroutine scheduler. This project models the parts of it that carry state from call to call, and proves what they are for. Where the code changes things step by step, the model does too (classes with the same fields, loops in the same places); the threads are a transition system whose steps are the critical sections of the code.

| part | files | main results |
|---|---|---|
| timing wheel | `timer_schedule.dfy`, `timer_slots.dfy`, `timer_words.dfy`, `timer_wheel.dfy`, `timer_clock.dfy` | over any run, past any wrap of the 32-bit clock, the messages of the wheel are the schedule of the timers asked for: each once, at its tick, in request order within a tick; calls without a delay may get in anywhere between them, each once and in order (`TimerWheel.Run`, `TimerWheel.AtOnceInOrder`, `TimerSchedule.EachRequestSentOnce`); in terms of the clock, a timeout of d asked for at reading p is sent by the first reading that reaches p + d and not before (`TimerClock.SentWhenReached`) |
| queues, workers, senders, killers | `protocol.dfy`, `protocol_frames.dfy`, `protocol_invariant.dfy`, `protocol_safety.dfy`, `protocol_killfate.dfy`, `protocol_lostkill.dfy`, `protocol_clear.dfy`, `protocol_delivery.dfy`, `message_queue.dfy` | for every interleaving: what arrives at a service is exactly what is sent to it, call for call (`ProtocolDelivery.ArrivesExactly`), one token per service, first in first out, no stranded message, exact batches, nothing after exit, no deadlock; a killed service exits if and only if no step of the run loses its kill (`ProtocolKillFate.KilledExitsUnlessLost`); and the methods of the queues take the fields through the steps of the protocol (`MessageQueue.Service.Turn`) |
| stream reassembly | `framing.dfy`, `netpack.dfy` | what a connection delivers is the parse of its byte stream, however it is cut and interleaved (`Netpack.Run`) |
| write buffer | `write_buffer.dfy` | at every moment of a run, whatever the socket accepts, the wire holds whole messages of exactly the sends that must be accepted, in an order that respects priorities, then the sent part of one (`WriteBuffer.Run`, `WriteBuffer.WireHoldsAccepted`) |
| packed read-only table | `shared_table.dfy`, `shared_lookup.dfy`, `shared_iteration.dfy`, `sharedata.dfy`, `shared_copy.dfy`, `luavalue.dfy` | lookup is a finite map, iteration ends exactly without the key 0, packing and copying back changes nothing, and the deep copy ends exactly if no table inside has the key 0 (`SharedCopy.LuaCopyEndsExactly`) |
| serializer | `seri_format.dfy`, `seri_decode.dfy`, `seri_wire.dfy`, `seri_roundtrip.dfy`, `seri_limits.dfy`, `seri_stream.dfy`, `seri.dfy`, `luavalue.dfy` | decoding undoes encoding for any order of entries and any border that survives as a size; the decoder is total; the bytes of every form in literal numbers, and no integer has a shorter form than its own (`SeriWire.NoShorterForm`); exactly which borders, string lengths and message lengths fail (`SeriLimits.BordersExactly`, `SeriStream.MessageRoundTrip`) |
| Lua scheduler | `scheduler_state.dfy`, `scheduler_steps.dfy`, `scheduler_standing.dfy`, `scheduler_runs.dfy`, `scheduler.dfy` | over every run of messages and of steps of user code: each request is answered at most once and at its address; a call waits until the first message of its own session, which resumes it at once, or until a wakeup of its coroutine or what an earlier one left behind makes it go on (`SchedulerRuns.CallGoesOn`); all coroutines are in one place at all times exactly if none is woken where it may not be (`SchedulerRuns.PlacesExactly`); tied to the code by `Scheduler.Run` |

The steps of the protocol (`Protocol.Next`) follow the code at the granularity of its locks: `StepSend`, `StepEnter` and `StepSet` are lines 213 to 226 of `src/starnet.cpp` with lines 104 to 116 of `src/starnet_mq.cpp`; `StepKill` is lines 132 to 153 of `src/starnet.cpp`; `StepSeek`, `StepCount`, `StepBatch` and `StepCheck` are the loop of `src/starnet_worker.cpp`; `StepClearLock`, `StepClear`, `StepFinish` and `StepReset` are `Clear` and `FinishDispatch` of `src/starnet_mq.cpp`, with the locks they hold across other steps. A critical section that waits for nothing else inside is one step. The last fields of a `Service` record and the `passes` of a state are history that no step reads.

The scheduler is stated twice: as functions from state to state (`SchedulerSteps.Next`), over whose runs the theorems range, and as the class whose methods change the tables the library has. A run is any sequence of messages and of operations of user code that are possible one after the other; which of them a coroutine performs, and what it computes in between, is open.

A Lua table is modelled by what the C API shows of it: the border `lua_rawlen` returns, any number, and its entries in the order of `lua_next`, any order (`LuaValue.Value`). What it means is a map (`LuaValue.Content`). Doubles and pointers are eight bytes; that a float key with an integral value is filed as an integer, and that NaN is refused, is modelled bit by bit (`LuaValue.RealKey`). Bytes are numbers below 256, and the machine is little-endian.

Things the code does that its comments do not say, and that the model keeps: a direct write of a non-empty message that takes no byte, or fails, drops the message while `SendBuffer` still returns 0; an error notice queued for a service never reaches Lua; a kill whose last test of `inGlobal` finds the flag still up, while the worker that has the service is past its test of `isExiting` and finds its queue empty, is lost; `starnet.wakeup` of a coroutine that waits in a call lets a later call of it return with the answer to the earlier one; iterating a shared table that has the integer key 0 starts over at that key; a string of 2^31 bytes or more is not restored; nor is a table whose border is negative as a 32-bit int, unless that int is a multiple of 32; a length field of `unpackstring` of 2^32 - 4 or more passes the check that the bytes are there.

## Model

| member | source | states |
|---|---|---|
| TimerWords.OrMaskIsQuot | src/starnet_timer.cpp:68-78 | Comparing two 32-bit words after or-ing both with a mask of 8, 14, 20 or 26 ones is comparing the quotients of the numbers they stand for, which is how the model writes the tests of add_node |
| TimerSlots.UnitsAgree | src/starnet_timer.cpp:64-78 | Within the window of pending delays, the comparisons made on wrapped 32-bit words give the answers they would give on ticks that never wrap |
| TimerSlots.CascadeMovesDown | src/starnet_timer.cpp:96-126 | When a level cascades, exactly the timers of its cascading slot change place, they go to strictly lower levels, and nothing pending is below that level at that moment |
| TimerSlots.CascadeOfWord | src/starnet_timer.cpp:113-124 | The first unit with a zero rest and a non-zero digit in the wrapped word is the level and slot that has to cascade on the unwrapped clock |
| TimerSlots.CascadeOnWrap | src/starnet_timer.cpp:109-111 | When the 32-bit clock wraps to zero, level 3 slot 0 is what has to cascade |
| TimerWheel.SlotZeroIsEmpty | src/starnet_timer.cpp:113-124 | Slot 0 of levels 0, 1 and 2 never holds a pending timer, which is why timer_shift may skip a zero digit |
| TimerWheel.CascadeFillsBelow | src/starnet_timer.cpp:96-126 | Below the cascading level every list was empty and afterwards is the cascaded timers of that slot in their old order |
| TimerWheel.CascadeKeepsAbove | src/starnet_timer.cpp:96-126 | At and above the cascading level no list changes except that the cascaded one becomes empty |
| TimerWheel.NearSlotIsDue | src/starnet_timer.cpp:145-156 | The near list of the current tick holds exactly the requests due now, in the order they were made, from whatever levels they came |
| TimerWheel.Wheel.AddNode | src/starnet_timer.cpp:63-81 | The node is appended to the one list its expiry and the current time name; every other list is unchanged |
| TimerWheel.Wheel.TimerAdd | src/starnet_timer.cpp:83-94 | For every positive C int delay, the request becomes due that many ticks from now even across a wrap, and every pending node stays in its one slot |
| TimerWheel.Wheel.Timeout | src/starnet_timer.cpp:190-206 | A delay of zero or less is answered at once without looking at the wheel, any other is registered for now plus the delay |
| TimerWheel.Wheel.MoveList | src/starnet_timer.cpp:96-104 | The list is emptied and each of its nodes appended, in order, to a strictly lower list |
| TimerWheel.Wheel.DispatchList | src/starnet_timer.cpp:128-143 | Sends one response for every node of the list, in list order; calls without a delay by other threads get in between them, since the lock is not held |
| TimerWheel.Wheel.TimerShift | src/starnet_timer.cpp:106-126 | One tick later every pending node again sits in the slot that add_node would choose at the new time; the loop stops at level 3 at the latest |
| TimerWheel.Wheel.TimerExecute | src/starnet_timer.cpp:145-156 | Sends exactly the requests due now, in request order, among whatever other threads send at once meanwhile; requests that arrive while the lock is released are kept, and none of them is due now |
| TimerWheel.Wheel.TimerUpdate | src/starnet_timer.cpp:158-169 | One tick: the first timer_execute always finds its list empty, and after the shift exactly what is due at the new tick is sent |
| TimerWheel.Wheel.UpdateTime | src/starnet_timer.cpp:227-242 | The wheel runs one tick for each centisecond that the reading is later than the last, less whole multiples of 2^32 for a later one than that, and none if it went back, sending at each what is due then; the reading becomes the new reference |
| TimerWheel.TimeoutFiresOnTime | src/starnet_timer.cpp:145-206 | A call of starnet_timeout with a delay of d ticks, anywhere in a run, is answered among the messages of the wheel inside the stretch of the tick d ticks later |
| TimerWheel.AnsweredAtOnce | src/starnet_timer.cpp:190-198 | With no delay its message is the next one sent |
| TimerWheel.AtOnceInOrder | src/starnet_timer.cpp:190-198 | Over every run the messages sent at once are those of the calls without a delay, each once and in the order of the calls, those made while a tick is being sent included |
| TimerWheel.InterleavedProjects | src/starnet_timer.cpp:128-156 | However calls without a delay fall among the messages of a tick, the messages of the wheel are what is due, in order, and the others are those calls, in order |
| TimerWheel.Run | src/starnet_timer.cpp:63-242 | Over every sequence of calls and of clock readings, later or earlier than the last, past any number of wraps, with calls of other threads falling anywhere between two messages: the messages of the wheel, in the order sent, are the schedule of the timers asked for |
| TimerWheel.Wheel.constructor | src/starnet_timer.cpp:254-261 | At the start nothing is pending or sent, and the two clock readings are what ticks and centiseconds are counted from |
| TimerClock.TicksAreTime | src/starnet_timer.cpp:227-242 | Over every run of readings less than 2^32 centiseconds apart the ticks run are the centiseconds between the first reading and the last, plus all by which the clock was set back meanwhile |
| TimerClock.FiredIsSchedule | src/starnet_timer.cpp:128-206 | At every moment of a run the messages of the wheel are the schedule, up to the tick reached, of the timers asked for so far |
| TimerClock.SentWhenReached | src/starnet_timer.cpp:190-242 | A timeout of d centiseconds asked for when the last reading is p: its message is among those sent at a later moment if and only if the clock has advanced by d since; unless it was set back meanwhile, if and only if a reading has reached p + d |
| TimerSchedule.EachRequestSentOnce | src/starnet_timer.cpp:128-169 | In that schedule each request appears exactly once, after all earlier ticks and inside its own; the positions follow due tick and then request order |
| TimerSchedule.AfterStep | src/starnet_timer.cpp:158-169 | What is due at the next tick depends only on what is still pending, so nothing is sent early, late or twice |
| ProtocolInvariant.RunKeeps | src/starnet_worker.cpp:34-80 | Every state reachable by any interleaving of sends, kills and worker steps, of any length and with any number of threads and services, satisfies the invariant |
| ProtocolInvariant.NextKeeps | src/starnet_mq.cpp:18-148 | Each single step of a sender, a killer or a worker keeps the invariant |
| ProtocolFrames.WorkTouches | src/starnet_worker.cpp:34-80 | A worker step changes only the service it is working on, the global queue and its own thread |
| ProtocolSafety.AtMostOneToken | src/starnet_mq.cpp:103-133 | In every reachable state the occurrences of a service in the global queue plus the workers holding it are at most one, so no two workers ever handle messages of a service, or run its exit, together; the token exists exactly while a service that has not exited has inGlobal set or is just being put into the global queue |
| ProtocolSafety.FirstInFirstOut | src/starnet_service.cpp:47-80 | For each service the messages handled, then those dropped at exit, then those queued are the push history in order, which `ProtocolDelivery.ArrivesExactly` says is what was sent to it; nothing is dropped before exit; OnExit runs at most once |
| ProtocolDelivery.ArrivesExactly | src/starnet.cpp:213-226 | Over every run with all threads interleaved: a step adds to what a service has been pushed if and only if it is the push of one call of Send to that service, begun by user code or by the loop of Clear, whose lookup found it registered, and then it adds exactly the message the call was begun with |
| ProtocolDelivery.SendReachesOne | src/starnet.cpp:213-219 | A call whose lookup finds its target appends its message to the queue of that service and changes no other; the lookup changes none |
| ProtocolDelivery.SendMisses | src/starnet.cpp:214-218 | A call whose lookup does not find its target ends there and changes no service |
| ProtocolDelivery.OneToOne | src/starnet.cpp:213-226 | No call is delivered twice, no delivery is that of two calls, and the calls of one thread are delivered in the order in which it made them |
| ProtocolDelivery.KillMarks | src/starnet.cpp:132-153 | A call of KillService that finds the service takes it out of the map with its second critical section and marks it as exiting with its third, and changes no other, whatever happens in between |
| ProtocolDelivery.MarkedByKill | src/starnet.cpp:132-153 | In every run a service that is to exit has been killed: a call of KillService for it was begun |
| ProtocolSafety.GlobalInOrder | src/starnet_mq.cpp:160-186 | The global queue is first in, first out: a step leaves it alone, puts one service at its end, or is that of a worker that goes on with the one in front |
| ProtocolSafety.NoStrandedMessage | src/starnet.cpp:213-226 | A service that has not exited and has a message is in the global queue, or held by a worker, or some sender or killer is about to put it there |
| ProtocolSafety.NothingAfterExit | src/starnet_worker.cpp:34-43 | Once a service has exited no step handles a message of it and none runs OnExit again |
| ProtocolSafety.ExitLeavesNothing | src/starnet_worker.cpp:36-46 | A worker lets go of a service that has exited only when its queue is empty: all that was pushed until then has been handled or dropped |
| ProtocolSafety.ExactBatch | src/starnet_service.cpp:73-80 | A pass that has found messages, or whose weight is not negative, never meets an empty queue before its batch is done, although others push meanwhile |
| ProtocolSafety.ExactPasses | src/starnet_worker.cpp:66-72 | A finished pass that read length L with weight w >= 0 has handled floor(L / 2^w) messages, so all of them for weight 0 and a half, a quarter or an eighth for 1, 2 and 3; one of a negative weight has handled exactly one if it read a length above 0, and at most one in any case |
| ProtocolSafety.PassProgress | src/starnet_worker.cpp:66-72 | A pass of weight w >= 0 handles anything at all if and only if the queue was at least 2^w long, one of a negative weight whenever it found a message |
| ProtocolSafety.NoWaitingCycle | src/starnet_worker.cpp:12-46 | No chain of threads each waiting for a lock the next one holds ever closes, not even on one thread, although Clear sends to other services with its queue locked |
| ProtocolSafety.WaitingDescends | src/starnet.cpp:132-153 | Along every wait a rank strictly falls: exits wait only for services erased later, and queue locks come before flag locks |
| ProtocolSafety.StepsExactly | src/starnet_mq.cpp:103-148 | In every reachable state a thread in the middle of something can take its next step if and only if it waits for no lock that is held |
| ProtocolSafety.SomeoneMoves | src/starnet_mq.cpp:103-148 | Any thread in the middle of something either can take its next step or waits, through a chain of holders, for one that can |
| ProtocolKillFate.KilledExitsUnlessLost | src/starnet.cpp:132-153 | Over every run: a killed service that is not queued, not with a worker and not addressed by any call has exited if and only if no step of the run lost its kill: the last test of inGlobal by a thread addressing it found the flag up while its worker was past the test of isExiting with an empty queue |
| ProtocolKillFate.DoomedIffLost | src/starnet_mq.cpp:118-133 | In the state a run ends in, a killed service is beyond help (not exited, addressed by nobody, nowhere or with a worker that is letting go) if and only if some step of the run lost its kill |
| ProtocolKillFate.DoomBegins | src/starnet.cpp:142-153 | A single step brings a service into that condition if and only if it is that test of the flag |
| ProtocolKillFate.LostForever | src/starnet_worker.cpp:34-46 | A service whose kill was lost never exits, whatever sends, kills and worker steps follow |
| ProtocolKillFate.KilledServiceFate | src/starnet.cpp:132-153 | In every reachable state a killed service that has not exited is not beyond help if and only if it is in the global queue, addressed by a call, or with a worker that will still test isExiting or put it back |
| ProtocolLostKill.KillCanBeLost | src/starnet_worker.cpp:36-45 | A concrete interleaving from the initial state after which a killed service never exits in any continuation |
| ProtocolLostKill.PassCanHandleNothing | src/starnet_worker.cpp:66-72 | A concrete reachable pass of a worker of weight 1 over one message handles none and puts the service back |
| MessageQueue.StarnetMQ.Push | src/starnet_mq.cpp:19-25 | The message is at the end of the queue; on a queue as the protocol has it before the step of a sender that pushes, leaves it as the protocol has it after that step |
| MessageQueue.StarnetMQ.Pop | src/starnet_mq.cpp:28-49 | Takes the first message; if more remain than the threshold, that number is recorded and the threshold is doubled until it covers them, to less than twice their number; an empty queue restores the threshold to 1024 |
| MessageQueue.StarnetMQ.TryEnterGlobal | src/starnet_mq.cpp:104-116 | The service is put into the global queue if and only if it was not marked as being in it, and then it is marked; with the flag up that is one step of the protocol, otherwise two |
| MessageQueue.StarnetMQ.FinishDispatch | src/starnet_mq.cpp:119-133 | Back into the global queue if messages remain, one step of the protocol; otherwise the mark is removed, two steps; never both, never neither |
| MessageQueue.StarnetMQ.Clear | src/starnet_mq.cpp:136-148 | The queue is emptied and every message has been handed to the drop function in order |
| ProtocolClear.ClearSendsNotices | src/starnet_mq.cpp:136-148 | From the moment a worker has locked the queue of an exiting service until it releases it, whatever all other threads do meanwhile: the calls of Send it has begun are the notices of the messages dropped so far, those are the queue front to back, and at the release they are all of it |
| MessageQueue.EverySenderNotified | src/starnet_worker.cpp:12-30 | An error notice goes out for a session and source exactly if a dropped service message had them with a source other than 0; every notice is an error without a source, a type that the receiving service does not pass on to Lua |
| MessageQueue.GlobalQueue.Pop | src/starnet_mq.cpp:173-186 | Takes the service in front, with which the seeking worker of the protocol goes on, and leaves the global queue it then has; nothing exactly when the queue is empty and that worker has to wait |
| MessageQueue.Service.ProcessMsg | src/starnet_service.cpp:48-70 | Handles the first message, or says that there is none, as the one step of a batch in the protocol does; handled and waiting together are unchanged |
| MessageQueue.Service.ProcessMsgs | src/starnet_service.cpp:48-80 | Handles the given number of messages, or all if there are fewer, in queue order, losing none; fields and protocol agree again after the steps of that batch |
| MessageQueue.Service.Turn | src/starnet_worker.cpp:34-78 | An uninterrupted turn of a worker handles one message for a negative weight, if there is one, and floor(length / 2^w) for a weight w >= 0, and then exits the service once, dropping the rest, or puts it back or releases it; it is the run of protocol steps in which that worker moves alone, back to seeking or up to OnExit, from where `ProtocolClear.ClearSendsNotices` goes on |
| MessageQueue.Service.HandleBatch | src/starnet_worker.cpp:66-73 | One message for a negative weight, if there is one, floor(length / 2^w) for a weight w >= 0, from the front of the queue, in the steps the protocol takes for it |
| MessageQueue.Service.CheckAndPutGlobal | src/starnet_worker.cpp:34-47 | A service that is to exit exits once, its queue dropped with the notices of all its messages; one that has exited is left alone; any other goes back to the global queue or is released, in the steps the protocol takes for it |
| Framing.Pack | lualib-src/lua-netpack.cpp:367-381 | A message of less than 2^16 bytes is packed behind its length, most significant byte first; what is packed arrives, by itself, as exactly that one message with nothing left over; packing refuses exactly the messages that no byte stream could deliver |
| Framing.FramesParse | lualib-src/lua-netpack.cpp:95-99 | Parsing packed messages followed by anything gives those messages and then the parse of the rest |
| Framing.ParseLosesNothing | lualib-src/lua-netpack.cpp:146-170 | Packing the parsed packets again and appending the unparsed remainder gives back the byte stream |
| Framing.ParseIsUnique | lualib-src/lua-netpack.cpp:146-170 | The packets and the remainder are the only way to read a stream as packed messages and an incomplete rest |
| Framing.ParseContinues | lualib-src/lua-netpack.cpp:172-257 | Parsing a stream in two parts, the second preceded by what the first left over, is parsing it at once |
| Netpack.HashFd | lualib-src/lua-netpack.cpp:50-56 | Every fd, negative ones included, has a bucket in the table |
| Netpack.Queue.FindUncomplete | lualib-src/lua-netpack.cpp:59-81 | Takes the half packet of that fd out of its chain, wherever in it, and leaves those of all other fds |
| Netpack.Queue.SaveUncomplete | lualib-src/lua-netpack.cpp:84-93 | The fd has that half packet and all other fds keep theirs; at most one per fd, in its own bucket |
| Netpack.Queue.ExpandQueue | lualib-src/lua-netpack.cpp:102-120 | The larger ring holds the same packets in the same order, from a wrapped and from a linear layout |
| Netpack.Queue.PushData | lualib-src/lua-netpack.cpp:123-143 | The ring, read as a queue, gains the packet at its end; growing loses and reorders nothing |
| Netpack.Queue.Pop | lualib-src/lua-netpack.cpp:312-325 | The oldest packet leaves the queue, or nothing if it is empty |
| Netpack.Queue.PushMore | lualib-src/lua-netpack.cpp:146-170 | Queues exactly the packets of the parse of the buffer and saves exactly its remainder for that fd |
| Netpack.Queue.FilterData | lualib-src/lua-netpack.cpp:173-257 | With s the saved half packet and the new bytes: nothing, one packet or the first of several is returned according to the parse of s, the others are queued, and the new half packet is the remainder of s |
| Netpack.Queue.Close | lualib-src/lua-netpack.cpp:328-341 | Forgets the half packet of that fd and no other |
| Netpack.Queue.Drain | lualib/starnet.lua:269-280 | Popping until nothing is left delivers the queue in order |
| Netpack.Queue.Dispatch | lualib/starnet.lua:260-281 | One chunk delivers the parse of the saved bytes and the chunk, leaves the queue empty and saves the remainder |
| Netpack.Run | lualib/starnet.lua:235-296 | For every interleaving of chunks and closes of any fds: what each fd delivered is the parse of each of its lives' byte streams in turn, and what is saved is the unparsed rest of the current one |
| Netpack.PackedMessagesArrive | lualib-src/lua-netpack.cpp:172-257 | Packed messages cut into chunks anywhere arrive as the same messages in the same order with nothing left over |
| WriteBuffer.ClassesInSendOrder | src/starnet_socket_server.cpp:539-550 | In a prioritised order two messages of one class keep their send order, and a high one is never behind a low one sent after it |
| WriteBuffer.WireIsPrefixOfOrder | src/starnet_socket_server.cpp:513-586 | The wire followed by the unsent bytes of both queues is the accepted messages whole, one after the other: none interleave, none lose or gain a byte |
| WriteBuffer.JoinKeepsOrder | src/starnet_socket_server.cpp:539-550 | A message put behind the high ones, or a low one at the very end, keeps every class in send order and every message once |
| WriteBuffer.LowRaised | src/starnet_socket_server.cpp:656-673 | Moving the low front to the high queue changes no place in the order and keeps what of it has been sent |
| WriteBuffer.ConnWriteBuffer.EntireWriteWhenEmpty | src/starnet_socket_server.cpp:513-536 | What write takes goes to the wire. If it takes all, nothing waits; if it takes n > 0 bytes or answers EAGAIN, the message waits in the high queue from byte n or 0 on, whatever the priority, and EPOLLOUT is asked for; if it takes none of a non-empty message or fails otherwise, the message is dropped without a byte on the wire |
| WriteBuffer.ConnWriteBuffer.EntireWriteWhenNotEmpty | src/starnet_socket_server.cpp:539-550 | The whole message joins the end of the queue of its class, and the backlog grows by its length |
| WriteBuffer.ConnWriteBuffer.WriteFrontFromList | src/starnet_socket_server.cpp:556-586 | 1 exactly if the socket took all of the front, which then leaves; -1 exactly for an error or a write of nothing; otherwise the front stays with what it has sent added |
| WriteBuffer.ConnWriteBuffer.FlushHigh | src/starnet_socket_server.cpp:656-658 | The messages are offered to the socket one after the other, each only after the one before was taken whole; the one that was not stays in front with what it has sent added, and the rest stay behind it |
| WriteBuffer.ConnWriteBuffer.FlushLowThenRaise | src/starnet_socket_server.cpp:660-673 | The same for the low queue; if something of it remains, exactly its front is now the high queue, so a later high message cannot come between its bytes |
| WriteBuffer.ConnWriteBuffer.OnWriteable | src/starnet_socket_server.cpp:641-708 | Exactly the messages the socket took whole leave, high before low and oldest first, and the next one keeps what it has sent; a low one that remains in front moves to the high queue; the backlog falls by exactly the bytes on the wire, so the clamp never acts; a drained closing buffer notifies, another drained one disarms EPOLLOUT |
| WriteBuffer.ConnWriteBuffer.SendBuffer | src/starnet_socket_server.cpp:590-637 | -1 and nothing else exactly on a closing connection; otherwise the message is queued whole behind its class, or, with nothing waiting, goes to write, and what follows from each of its answers is stated; a warning exactly if at least 1 MB (2^20 bytes) and at least the threshold is waiting, with the size in KB rounded up; after k warnings the threshold is 2^(20+k) |
| WriteBuffer.ConnWriteBuffer.WriteOrQueue | src/starnet_socket_server.cpp:607-614 | A message goes to write at once if and only if no other waits, and otherwise behind those that do |
| WriteBuffer.ConnWriteBuffer.LingerClose | src/starnet_socket_server.cpp:711-752 | The connection is closing from now on, and is closed at once exactly if it was not closing already and nothing waits |
| WriteBuffer.AcceptedExactly | src/starnet_socket_server.cpp:590-637 | Over every run the buffer answers for exactly the messages of those sends that no close preceded, except that a send with nothing waiting is missing if and only if its own write failed with something other than EAGAIN or took nothing of a non-empty message |
| WriteBuffer.RestWaits | src/starnet_socket_server.cpp:513-536 | In every step of a run that sends while nothing waits: after EAGAIN the whole message waits and the wire is as before, after a write of n bytes the wire has gained those n and the rest waits if 0 < n < length, and otherwise nothing waits |
| WriteBuffer.ClosingAfterLinger | src/starnet_socket_server.cpp:711-752 | A buffer is closing exactly after a close, and stays so |
| WriteBuffer.RunSound | src/starnet_socket_server.cpp:513-708 | In every state that follows so, the queues hold, in priority order, what is accepted and not written out, low messages wait only behind a high one, and the wire ends with the sent part of the front |
| WriteBuffer.FlushedBuffered | src/starnet_socket_server.cpp:656-673 | The bytes that a flush adds to the wire are the messages it takes off the queues, whole, and the part of the next one that the socket took |
| WriteBuffer.WireHoldsAccepted | src/starnet_socket_server.cpp:513-708 | At every moment of a run: the wire is whole accepted messages, each once, in an order where each class keeps its send order and no low message passes an earlier high one, followed by the sent part of the high front; wire and queues together are all the accepted messages, whole |
| WriteBuffer.Run | src/starnet_socket_server.cpp:513-752 | A run of sends, flushes and closes, with any answers of the socket, goes from the empty buffer through states each of which follows from the one before by what the operation does with those answers: which messages join and where, which leave, how far the front is sent and exactly which bytes the wire gains |
| LuaValue.GetIsField | lualib-src/lua-seri.cpp:130-135 | Reading slot n of a table finds what the map has under n, whatever the order of its entries |
| LuaValue.FieldOfEntry | lualib-src/lua-seri.cpp:138-156 | Every entry with a scalar key is a field of the map the table stands for |
| LuaValue.KeyedInOrder | lualib-src/lua-seri.cpp:138-156 | Every entry whose key is itself a table is a pair of its own in what the table stands for, in the order of the entries |
| LuaValue.DoubleKeys | lualib-src/lua-seri.cpp:371-380 | As keys the doubles 1.0, -1.0 and -0.0 are the integers 1, -1 and 0, one half and infinity are themselves, and NaN is refused |
| SharedTable.HashKey | src/starnet_sharedata.cpp:7-14 | The loop computes the hash function that lookups and homes are defined by, for strings of any length |
| SharedTable.KnownHashes | src/starnet_sharedata.cpp:7-35 | The hashes of -1, 2^32 + 2, the empty string, "a" and "ab" in numbers |
| SharedTable.PutOwned | src/starnet_sharedata.cpp:50-60 | Placing an item in a free slot keeps items and slots in one-to-one correspondence |
| SharedTable.BehindLinked | src/starnet_sharedata.cpp:78-87 | Linking an overflow item right behind its home slot keeps every chain inside the items of its home and free of repetition |
| SharedTable.RoomLeft | src/starnet_sharedata.cpp:69-80 | While an item is unplaced there is a free slot, so the branch that gives up is never taken |
| SharedTable.NoRoomLeft | src/starnet_sharedata.cpp:38-47 | When all items are placed every slot is full |
| SharedTable.SharedTableBuilder.SetArray | src/starnet_sharedata.cpp:17-24 | The slot holds the value, the array has grown to it with nil between, all other slots are as before, and index 0 is ignored |
| SharedTable.SharedTableBuilder.AddHash | src/starnet_sharedata.cpp:27-35 | The key waits for Finish with its own hash; the items stand for the map they stood for with this entry added, and stay fit for Finish if the key is new and the value not nil |
| SharedTable.SharedTableBuilder.FillNoColliding | src/starnet_sharedata.cpp:50-60 | Every item's home slot holds an item that belongs there |
| SharedTable.SharedTableBuilder.FillColliding | src/starnet_sharedata.cpp:63-90 | Every item has a slot, every slot an item, and every item is in its home slot or on the chain behind it |
| SharedTable.SharedTableBuilder.FindFree | src/starnet_sharedata.cpp:71-77 | The leftmost free slot from the given one on, which exists as long as an item is unplaced |
| SharedTable.SharedTableBuilder.Finish | src/starnet_sharedata.cpp:38-47 | For distinct keys and no nil values the hash part is full, each item in it once, each on the acyclic chain of its home slot; an empty table stays empty |
| SharedLookup.FinishedPacks | src/starnet_sharedata.cpp:16-47 | A finished table stands for exactly one finite map, in which a slot of the array takes precedence over an item of the same key |
| SharedLookup.KeyOnChain | src/starnet_sharedata.cpp:100-125 | A key that is present sits in its home slot or on the chain that starts there |
| SharedLookup.LookupHash | src/starnet_sharedata.cpp:100-125 | Terminates for every key with its slot, or with none exactly if no slot has it, the early exit at a lone home slot included |
| SharedLookup.Lookup | src/starnet_sharedata.cpp:92-143 | For every key, present or not, however hashes collide, the answer is that of the finite map; a nil slot of the array counts as absent |
| SharedLookup.NodeIsItem | src/starnet_sharedata.cpp:38-90 | What a slot holds is an entry of the map with its value |
| SharedLookup.ItemHasNode | src/starnet_sharedata.cpp:38-90 | Every entry of the map has a slot |
| SharedIteration.NextHashSlot | src/starnet_sharedata.cpp:146-155 | The first slot from the given one on that is not nil |
| SharedIteration.NextKey | src/starnet_sharedata.cpp:158-197 | The next entry after the given key in slot order; the first for the integer 0 |
| SharedIteration.VisitsEachOnce | src/starnet_sharedata.cpp:158-197 | Without the integer key 0, stepping from the start visits every entry that is not nil exactly once, in order, and then ends |
| SharedIteration.LiveIsAll | src/starnet_sharedata.cpp:158-197 | The list it walks through contains every position that is not nil, once, ascending |
| SharedIteration.VisitsOverAndOver | src/starnet_sharedata.cpp:159-168 | With the key 0 it visits the entries up to that one over and over |
| SharedIteration.EndsUnlessZero | src/starnet_sharedata.cpp:158-197 | Iteration comes to an end if and only if the table does not have the integer key 0 |
| SharedIteration.NeverEnds | src/starnet_sharedata.cpp:158-197 | The table whose only key is 0 has one entry, and every step of the iteration leads to it again |
| SharedData.ConvTable | lualib-src/lua-sharedata.cpp:74-112 | Succeeds exactly if every key is an integer or a string and every value is supported, at every depth; the packed table then means what the Lua table does, for any order of lua_next, any border and any collisions |
| SharedData.ConvValue | lualib-src/lua-sharedata.cpp:40-72 | Fails exactly for nil, light userdata and other unsupported values, alone or inside; otherwise keeps the meaning |
| SharedData.TableMeansEntries | lualib-src/lua-sharedata.cpp:79-111 | When all entries are collected, Finish makes a table with the fields of the Lua table and no others |
| SharedData.PushTable | lualib-src/lua-sharedata.cpp:146-161 | Stepping through the keys rebuilds the whole nested table |
| SharedData.Copy | lualib-src/lua-sharedata.cpp:74-161 | Packing a Lua table and copying it back gives an equal nested table |
| SharedCopy.CopyEndsExactly | lualib-src/lua-sharedata.cpp:146-161 | The recursion of push_table comes to an end if and only if the integer 0 is no key of the table or of any table inside, and whenever it ends the copy means what the packed table does |
| SharedCopy.LuaCopyEndsExactly | lualib-src/lua-sharedata.cpp:74-161 | The same for the Lua table that was packed: the copy ends if and only if no table inside has the key 0, and then has its content |
| SeriFormat.PackSucceeds | lualib-src/lua-seri.cpp:202-246 | Packing succeeds if and only if nothing unsupported is inside and nothing lies more than 32 levels deep, empty slots included |
| SeriFormat.FixedWidthsReadBack | lualib-src/lua-seri.cpp:43-75 | Two, four and eight byte fields read back as the number modulo their width |
| SeriWire.IntegerWire | lualib-src/lua-seri.cpp:43-75 | Every integer byte by byte, in literal numbers: [2], [10, n], 18 with two bytes, 34 with four or 50 with eight, each on its exact range, least significant byte first and negative ones in two's complement |
| SeriWire.StringWire | lualib-src/lua-seri.cpp:91-114 | Every string below 2^31 bytes byte by byte: [4 + 8 * length], [21] and two bytes of length, or [37] and four, each on its exact range, and then the string |
| SeriWire.AtomWire | lualib-src/lua-seri.cpp:37-89 | Booleans are [1] and [9], a double is [66] and its eight bytes, a light userdata [3] and its eight |
| SeriWire.TableWire | lualib-src/lua-seri.cpp:118-128 | A table starts with the byte 6 + 8 * border for borders below 31, and with 254 and the border as an integer from 31 on |
| SeriWire.DepthLimit | lualib-src/lua-seri.cpp:202-206 | Tables nested n deep, met at depth d, can be packed if and only if n + d <= 32 |
| SeriWire.NoShorterForm | lualib-src/lua-seri.cpp:43-75 | Whatever bytes decode to an integer, anywhere in any buffer, are at least as many as those it is encoded in |
| SeriDecode.UnpackOne | lualib-src/lua-seri.cpp:438-447 | On every byte string and position the decoder yields a value or rejects; a value takes at least one byte and never one past the end |
| SeriDecode.UnpackHash | lualib-src/lua-seri.cpp:349-380 | Reading pairs up to the nil key terminates on every input and consumes at least that nil |
| SeriDecode.DeclaredSize | lualib-src/lua-seri.cpp:350-364 | A small size is the cookie itself; otherwise the size is exactly the integer that decoding the next value gives, cut down to a 32-bit int, and a next value that is not an integer is rejected |
| SeriRoundTrip.IntegerRoundTrip | lualib-src/lua-seri.cpp:43-75 | Every 64-bit integer is restored, from whichever width it was given |
| SeriRoundTrip.StringRoundTrip | lualib-src/lua-seri.cpp:91-114 | Every string below 2^31 bytes is restored, short, 16-bit and 32-bit forms alike |
| SeriRoundTrip.LongStringLost | lualib-src/lua-seri.cpp:91-114 | A string of 2^31 bytes or more is never restored, because its length goes through an int |
| SeriRoundTrip.AtomRoundTrip | lualib-src/lua-seri.cpp:382-436 | Booleans, integers, doubles, pointers and strings are restored bit for bit |
| SeriRoundTrip.ArrayRoundTrip | lualib-src/lua-seri.cpp:118-136 | The packed slots fill exactly the slots of the decoded table, holes staying empty |
| SeriRoundTrip.HashRoundTrip | lualib-src/lua-seri.cpp:138-156 | The packed pairs, in any order, complete the table to its full meaning |
| SeriRoundTrip.ValueRoundTrip | lualib-src/lua-seri.cpp:202-447 | Any packed value decodes to what it means, with any bytes behind it, for any order of lua_next and every border that stays a size, or a multiple of 32, as an int; decoding stops right behind its bytes |
| SeriLimits.BordersExactly | lualib-src/lua-seri.cpp:118-136 | A border is safe in every table, at any depth of a value with shorter strings than 2^31 bytes, if and only if as a 32-bit int it is not negative or is a multiple of 32 |
| SeriLimits.BorderLost | lualib-src/lua-seri.cpp:118-136 | With any other border even the table whose only key is its border does not come back |
| SeriLimits.ThirtySlotsAsked | lualib-src/lua-seri.cpp:118-136 | The table { true } with the border 2^32 - 2 packs to five bytes whose head asks for 30 slots, and is rejected |
| SeriLimits.ValueRestored | lualib-src/lua-seri.cpp:202-447 | A value whose borders are safe comes back if and only if every string in it, however deep, is shorter than 2^31 bytes |
| SeriLimits.DecodedShort | lualib-src/lua-seri.cpp:338-345 | No byte string decodes to a value with a string of 2^31 bytes or more in it |
| SeriStream.OneExtends | lualib-src/lua-seri.cpp:438-447 | Whatever bytes decode to a value still do, to the same value and length, when more bytes follow |
| SeriStream.MessageRoundTrip | lualib-src/lua-seri.cpp:450-498 | Serialising a list whose borders are safe and reading it back gives the same list if and only if every string in it and the whole take fewer than 2^31 bytes |
| SeriStream.ListBordersExactly | lualib-src/lua-seri.cpp:450-498 | A border is safe in every such list, however deep it lies, if and only if as a 32-bit int it is not negative or is a multiple of 32 |
| SeriStream.PackedStringRoundTrip | lualib-src/lua-seri.cpp:501-533 | A length-prefixed message is read back exactly, whatever follows it, if and only if every string in it and the whole take fewer than 2^31 bytes |
| SeriStream.CutShort | lualib-src/lua-seri.cpp:517-533 | A message with fewer bytes than its length field says is rejected if and only if that field is below 2^32 - 4; above, the check wraps around and no values are returned |
| SeriStream.TakenForEmpty | lualib-src/lua-seri.cpp:517-533 | The four bytes 255 announce 2^32 - 1 bytes that are not there, and are read as an empty list |
| Seri.WriteBlock.WbInteger | lualib-src/lua-seri.cpp:43-75 | Appends the number, changing nothing before it: [2] for 0, [10, n] for 1 to 255, 18 and two bytes up to 2^16 - 1, 34 and four bytes for any other 32-bit int, 50 and eight bytes for the rest |
| Seri.WriteBlock.WbString | lualib-src/lua-seri.cpp:91-114 | Appends the string: the byte 4 + 8 * length and the bytes for fewer than 32, 21 and a two-byte length before the bytes below 2^16, 37 and a four-byte length up to 2^31 - 1; for longer ones the length cut down to an int decides |
| Seri.WriteBlock.WbAtom | lualib-src/lua-seri.cpp:31-114 | Appends a boolean as 1 or 9, a double as 66 and its eight bytes, a pointer as 3 and its eight, and a number or string as the format has it |
| Seri.WriteBlock.WbTableArray | lualib-src/lua-seri.cpp:118-136 | Appends the border and every slot up to it, or reports the failure of one |
| Seri.WriteBlock.WbTableHash | lualib-src/lua-seri.cpp:138-156 | Appends the pairs that are not slots, in the order of lua_next, and the closing nil |
| Seri.WriteBlock.PackOne | lualib-src/lua-seri.cpp:202-246 | The recursive encoder appends exactly the bytes of the format, for which the round trip is proved and whose literal bytes `SeriWire` gives, and fails exactly where it is undefined, so below 32 tables and for what has no form; a nil is the byte 0, and a table with a border b below 31 starts with 6 + 8 * b |
| Seri.ReadBlock.RbRead | lualib-src/lua-seri.cpp:255-264 | Reads inside the block or not at all; position and remaining length always add up to the block |
| Seri.ReadBlock.ReadInteger | lualib-src/lua-seri.cpp:274-315 | The signed or unsigned number of the width the cookie names, or a rejection for any other cookie or too few bytes |
| Seri.ReadBlock.ReadWord | lualib-src/lua-seri.cpp:317-336 | Eight bytes as a double or a pointer, or a rejection |
| Seri.ReadBlock.ReadBuffer | lualib-src/lua-seri.cpp:338-345 | That many bytes as a string, or a rejection |
| Seri.ReadBlock.ReadLongString | lualib-src/lua-seri.cpp:407-428 | A two or four byte length and that many bytes; any other cookie is rejected |
| Seri.ReadBlock.ReadValue | lualib-src/lua-seri.cpp:382-436 | The value that the type and cookie of a head byte announce; the unused type is rejected |
| Seri.ReadBlock.ReadTable | lualib-src/lua-seri.cpp:349-380 | The table the format defines, whatever size it declares, and termination on every input |
| Seri.ReadBlock.UnpackValue | lualib-src/lua-seri.cpp:438-447 | The decoder that advances through the block gives the value the format defines and leaves fewer bytes; it terminates on every input |
| Seri.ReadBlock.ReadSlots | lualib-src/lua-seri.cpp:367-371 | The loop over declared slots follows the format for negative and for oversized sizes too |
| Seri.ReadBlock.ReadPairs | lualib-src/lua-seri.cpp:372-379 | The loop over pairs follows the format: it ends at a nil key and rejects a NaN key |
| Seri.Serialize | lualib-src/lua-seri.cpp:478-486 | All values in order as one string, or a failure if one of them cannot be packed |
| Seri.PackStringOf | lualib-src/lua-seri.cpp:501-514 | The serialised list behind its length modulo 2^32 in four bytes, most significant first |
| Seri.UnpackBuffer | lualib-src/lua-seri.cpp:450-475 | The values of the first len bytes or a rejection, for every byte string; none for a length of zero or less |
| Seri.UnpackStringOf | lualib-src/lua-seri.cpp:517-533 | Reads the big-endian length, checks it modulo 2^32 and decodes that many bytes |
| SchedulerSteps.NextKeeps | lualib/starnet.lua:99-106 | Every message and every operation of the library keeps each coroutine in one place, contexts with the coroutines they belong to, and running_thread right, if wakeup is called only for coroutines it may wake |
| SchedulerSteps.WakeupKeepsPlaces | lualib/starnet.lua:340-345 | Of the suspended coroutines, waking one leaves every coroutine in one place if and only if it is parked by a plain yield |
| SchedulerSteps.NextOwed | lualib/starnet.lua:507-546 | Whatever user code wakes, every step keeps each request owed by at most one context or one-shot function and answered by nobody else |
| SchedulerSteps.NextRunning | lualib/starnet.lua:19-22 | Whatever user code wakes, after every step running_thread is the coroutine on top and below every woken coroutine is the one that woke it |
| SchedulerStanding.NextStanding | lualib/starnet.lua:99-106 | Whatever user code wakes, after every step the coroutines on the stack are those that run, each once, whoever waits in a call or a sleep is registered under its session, and no coroutine in the pool, the fork queue or on a timer carries a context |
| SchedulerStanding.NextAtHome | lualib/starnet.lua:99-106 | A coroutine keeps to the one place of its status, whatever is done to all others, as long as it is itself woken only where it may be |
| SchedulerRuns.OnePlaceInRuns | lualib/starnet.lua:99-106 | In every run a coroutine that is itself woken only where it may be, whatever happens to others, is executing, or once in the pool, or once in the fork queue, or under one session, never two of these; and in the pool or the fork queue it has no session or address |
| SchedulerRuns.PlacesExactly | lualib/starnet.lua:340-345 | All coroutines are in their one place at every moment of a run if and only if wakeup is never called for one that waits in a call or a sleep, on a timer, in the fork queue or in the pool |
| SchedulerRuns.NeverHeldBack | lualib/starnet.lua:112-137 | In such a run the coroutine that co_create takes from the pool is always waiting there for its function |
| SchedulerRuns.RunningIsTop | lualib/starnet.lua:340-345 | In every run running_thread is the coroutine that executes, after wakeups at any depth too |
| SchedulerRuns.CallGoesOn | lualib/starnet.lua:488-556 | Over every run, whatever user code wakes: a call or sleep is waited for exactly as long as no message of its session is delivered, its coroutine is not woken, no message comes in for another entry of it and the fork queue does not come to it; a message of its session resumes it, on its own |
| SchedulerRuns.WaiterStep | lualib/starnet.lua:159-221 | The same for one step |
| SchedulerRuns.AnsweredOrWoken | lualib/starnet.lua:340-345 | As long as it has been woken only where it may be, a waiting coroutine goes on exactly at a message of its session or at a wakeup of it |
| SchedulerRuns.JoltedByWakeup | lualib/starnet.lua:340-345 | If anything but a message of its session makes a waiting coroutine go on, it is being woken or was woken earlier where it may not be |
| SchedulerRuns.ResumedByOwnSession | lualib/starnet.lua:488-556 | A coroutine that calls or sleeps, and is itself woken only where it may be, waits for its new session if and only if no response or error of that session has been delivered since |
| SchedulerRuns.WakeupMixesUpCalls | lualib/starnet.lua:340-345 | A concrete run in which a coroutine waiting in a call is woken: it is then in two places, and its next call comes back with the answer to the first |
| SchedulerRuns.LedgerIsHistory | lualib/starnet.lua:159-229 | Over every run the requests on record are those of the messages and events that were delivered to a handler, in order, and the answers those of the steps that answered |
| SchedulerRuns.RepliesGoBack | lualib/starnet.lua:507-546 | Over every run the k-th reply has the address and session of the request that its step answered, and no reply goes out for session 0 |
| SchedulerRuns.EachAnsweredOnce | lualib/starnet.lua:507-546 | No two steps of a run answer the same request, whether by ret or by functions of response, whoever calls them |
| SchedulerRuns.RetAnswersItsRequest | lualib/starnet.lua:507-526 | A coroutine keeps the request it was started with until it answers it, hands it on or ends; its first ret answers exactly that request if its session is not 0, and nothing otherwise |
| SchedulerRuns.ResponseAnswersOnce | lualib/starnet.lua:529-546 | A function that response has given out answers, at its first call, exactly the request its coroutine had, if the session is not 0 |
| SchedulerRuns.ForksInOrder | lualib/starnet.lua:195-221 | Over every run what is in the fork queue is what was forked and not yet started, in order; a dispatch is over only when the queue is empty, with what was forked meanwhile |
| SchedulerRuns.DeadStays | lualib/starnet.lua:140-149 | Over every run a dead coroutine stays dead and never executes again, whatever is delivered and whoever wakes it |
| SchedulerRuns.QuitsExactly | lualib/starnet.lua:140-149 | Over every run: a coroutine that calls exit never executes again if the dispatcher had resumed it; otherwise it is parked, and the next wakeup of it makes it go on behind the call |
| Scheduler.Run | lualib/starnet.lua:112-575 | After any sequence of messages and operations the tables of the library are those of the run that the theorems speak about |
| Scheduler.Perform | lualib/starnet.lua:112-575 | Each operation, on its own tables and indices, is the step of the specification |
| Scheduler.Scheduler.CoCreate | lualib/starnet.lua:112-137 | The coroutine pooled last leaves the pool, takes the function and waits; with an empty pool a new one is made; running_thread is what it was and nothing runs |
| Scheduler.Scheduler.Resume | lualib/starnet.lua:19-22 | A suspended coroutine goes on, on top of whoever resumed it; one in the pool takes what it is given as its next function; one that runs or is dead stays as it is; running_thread is set in any case |
| Scheduler.Scheduler.Return | lualib/starnet.lua:340-345 | After a woken coroutine suspends or ends, running_thread is the coroutine that woke it |
| Scheduler.Scheduler.StartInCoroutine | lualib/starnet.lua:224-229 | A coroutine runs with exactly this session and address as its context, and running_thread is that coroutine |
| Scheduler.Scheduler.RawDispatch | lualib/starnet.lua:159-193 | A response or error takes the entry of its session, and no other, and resumes the coroutine under it; without an entry nobody runs; a message with a handler starts a coroutine that owes its reply |
| Scheduler.Scheduler.DrainForks | lualib/starnet.lua:199-208 | One round of the loop: the first coroutine of the queue leaves its slot and runs, and with an empty queue the dispatch is over |
| Scheduler.Scheduler.YieldFor | lualib/starnet.lua:488-495 | The executing coroutine, and no other, is registered under the session and stops running |
| Scheduler.Scheduler.Call | lualib/starnet.lua:497-504 | The caller waits under a session never used before |
| Scheduler.Scheduler.Sleep | lualib/starnet.lua:549-556 | The same, for the timer's message |
| Scheduler.Scheduler.Timeout | lualib/starnet.lua:570-575 | A new coroutine is registered under a new session, without disturbing the one that executes |
| Scheduler.Scheduler.Fork | lualib/starnet.lua:559-567 | A new coroutine is at the end of the fork queue, without disturbing the one that executes |
| Scheduler.Scheduler.Ret | lualib/starnet.lua:507-526 | One reply at the address and session of the executing coroutine if it has a session other than 0, none otherwise; after that it has none, so that a second call fails |
| Scheduler.Scheduler.MakeResponse | lualib/starnet.lua:529-546 | The right to answer moves from the coroutine to the function given out, and nothing is sent |
| Scheduler.Scheduler.UseResponse | lualib/starnet.lua:537-546 | One reply at the function's address and session if it has not sent one and the session is not 0, none otherwise; afterwards it has sent it |
| Scheduler.Scheduler.Wakeup | lualib/starnet.lua:340-345 | Any suspended coroutine goes on, on top of the caller, with running_thread set; one that runs, is dead or only takes its next function leaves running_thread to the caller |
| Scheduler.Scheduler.Finish | lualib/starnet.lua:116-127 | The coroutine joins the pool without session or address |
| Scheduler.Scheduler.Exit | lualib/starnet.lua:302-306 | The final yield closes a coroutine resumed by the dispatcher, which is dead from then on, and only suspends any other; either way whoever resumed it goes on |

## Left out

- Sockets, epoll, accept and connect, UDP, files, environment, logging, profiling, monitoring, names and daemon mode: system calls and plumbing. `write` is a method that takes any part of the data or fails.
- Waking sleeping workers (`CheckAndWeakUp`): only safety is proved. Starting with `OnInit`, which runs on the creating thread, is outside the exclusivity claims.
- Memory order: every step sees all earlier ones, and `isExiting` and `exited` are read and written atomically.
- Wrap-around of `maxId` and of a service's session counter, and lengths, fds and counts of 2^31 and more outside the serializer: the model counts without limit. The loop of `starnet_updatetime` over more than 2^31 ticks, whose index is an int, is not bounded either.
- Failing allocations, Lua's memory, stack and C recursion limits, and garbage collection of parser queues and boxes. `netpack.clear` is not modelled.
- Handlers that raise in the drain loop of `dispatch_socket`: the packets they leave queued are delivered by a later chunk. `Netpack.Run` is about handlers that return.
- Netpack.Run: a service with a handler for socket data, in framed mode. Without a handler a chunk is dropped (line 264 of `lualib/starnet.lua`), and `rawdata` bypasses the parser.
- The lists of the wheel and the chains of half packets are sequences, one per slot; their nodes and `next` pointers, and so the relinking itself, are not modelled.
- TimerClock.SentWhenReached: for readings less than 2^32 centiseconds (497 days) apart; a reading 2^32 or more later than the last advances the wheel by the difference modulo 2^32, which is a uint32. What `starnet_now` shows while the ticks run jumps by the whole difference first.
- ProtocolKillFate.KilledExitsUnlessLost: that every killed service exits is false; `ProtocolLostKill.KillCanBeLost` is a run, and this lemma says for which runs it holds.
- WriteBuffer.ConnWriteBuffer.SendBuffer: -1 for an fd without a connection is outside the buffer and not modelled. Whether EPOLLOUT is armed whenever data waits, and how often CLOSE is delivered, depend on code outside the locks and are not claimed.
- SharedData.PushTable: is asked only of tables without the integer key 0 at any depth; with one the recursion of the source does not end (`SharedCopy.CopyEndsExactly`).
- SharedLookup.Lookup: for fewer than 2^63 slots, so that slot numbers are Lua integers.
- The store of shared tables with its versions, and the boxes that show them to Lua: versions restart after a delete, and without one they are easy.
- SeriRoundTrip.ValueRoundTrip: asks for safe borders and strings below 2^31 bytes; `SeriLimits.ValueRestored` and `SeriLimits.BordersExactly` show that no more can be had, although a single table with an unsafe border may still come back by coincidence. Tables with `__pairs` run user code while they are packed and are not modelled.
- Seri.ReadBlock.UnpackValue: a string of 2^31 bytes or more is rejected by Lua when it is pushed; the corrupted position the block has at that moment is not modelled, since the error discards it.
- SchedulerRuns.OnePlaceInRuns: asks that this coroutine is woken only where it may be; `SchedulerRuns.PlacesExactly` says that all are in their places exactly if all are, and `SchedulerRuns.WakeupMixesUpCalls` what happens otherwise.
- SchedulerSteps.Next: once a wakeup has made a pooled coroutine run, or take a function, while it stays in the pool, co_create would run it in the middle of its caller; steps that need a coroutine are then not taken.
- Scheduler.Scheduler.StartInCoroutine: starting a service's main coroutine and dispatching socket events only from outside any coroutine, as the C side does. What user code computes, and coroutines it makes without this library, are not modelled.
