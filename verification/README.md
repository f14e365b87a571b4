# iemnet: verified models of the send pipeline and the client tables

iemnet is a networking library for Pure Data. This project models the parts of it that keep state over time and
proves what they do over every run.

* **The send pipeline** (`SenderProtocol`, `SenderSafety`, `SenderCalls`, `SenderProgress`, `SenderRefinement`). Every
  open connection has a queue of chunks and a thread that pops and sends. The model is a machine of two threads with a
  program counter each, three mutexes, two condition variables, the flags `keepsending`, `isrunning` and `done`, and the counter `used`. A step is
  one lock operation, one critical section or one call of the send function. Condition variables behave as
  `pthread_cond_wait` does in IEEE Std 1003.1: safety is proved with spurious wakeups, progress without them.
* **The linked list behind the queue** (`ChunkQueue`): a heap structure that refines a sequence, and is the queue
  the pipeline uses.
* **The client table of udpserver** (`UdpTable`, `UdpScan`, `UdpSending`, `UdpFrees`, `UdpRuns`, `UdpHoles`,
  `UdpRules`): lookup, expiry by in-place compaction, permanent ids, the default target, sends that are refused, and explicit removal.
* **The client table of tcpserver** (`TcpTable`): removal by shifting, and broadcasts over a snapshot during which
  failing clients leave the table.
* **The slot table of tcpreceive** (`TcpReceive`) and **the life cycle of tcpclient** (`TcpClient`): what happens to
  every descriptor, sender and receiver.
* **Chunks and atom lists** (`Chunks`): conversion through one reused buffer, and output.

Where the source updates fields or arrays in place, the model is a class whose methods are proved equal to a function
on values (`View() == F(old(View()))`), and the theorems are about that function. The other modules work on values.

Some calls reach beyond the end of a table or follow an empty slot of it, and C leaves open what they do. The methods
that model them return `ok`, which is false exactly then, and the functions return `None`. Their contracts say when
that happens and what is computed otherwise; no precondition shuts the case out.

## Where the code and its intent differ

The model follows the code. Each difference is a theorem.

* `iemnet_data.h:159` says that popping from a finished queue returns at once. The code tests `done` only after a wait
  (`iemnet_data.c:365-375`), so `iemnet__sender_destroy` can block for ever. `HangsExactlyWhenAtRisk` says from which
  states, `CodeCanHang` that destroying a new sender is enough, and `FairRunsFinish` that the documented version always
  returns.
* `udpserver_sender_remove` says it closes the gap, but assigns the same slot on every iteration
  (`udpserver.c:282-286`). `RemoveShiftsOnlyAtTheEnd`, `RemoveLosesLastClient`, `HoleBreeds`, `HoleIsFollowed`,
  `DisconnectAllFreesHalf` and `DisconnectAllWithScan` say what follows.
* Both udpserver loops that send to several clients go on after a refused send has changed the table under them
  (`udpserver.c:448-454`, `udpserver.c:507-511`). A broadcast then misses its last clients (`BroadcastReachesAll`), and
  a send to all but one client can reach that client (`ExcludedExactly`, `ExcludedIsSentToInARun`).
* `tcpserver_disconnect_all` advances its index while the table shrinks (`tcpserver.c:570-576`) and leaves every second
  client.
* `tcpserver_disconnect` touches the slot after the next free one (`tcpserver.c:540-543`), so with one free slot or none
  a removal leaves the table (`Disconnect`, `ConnectThenDisconnect`).
* The gate of the expiry scan looks at the time but not at the timeout, so a timeout shortened within the instant of
  the last scan has no effect until time moves on (`GateMissesShorterTimeout`).
* `tcpreceive_disconnect` takes port 0 for an unused slot, so a connection from port 0 is never released
  (`PortZeroStays`).
* `tcpclient_disconnect` leaves `x_connectstate` as it was, so the flag tells how the last attempt went and not whether
  there is a connection (`FlagIsLastAttempt`, `FlagTellsExactly`, `DisconnectLeavesFlag`).

## Model

| member | source | states |
|---|---|---|
| `SenderSafety.StepKeepsInv` | iemnet_sender.c:125-223 | every step of either thread, and every spurious wakeup, keeps the mutexes exclusive, `used` exact, the ledger of copies balanced, the byte count right and the answers in order |
| `SenderSafety.ReachableInv` | iemnet_sender.c:125-223 | so all of this holds in every reachable state, for the code and for the documented pop |
| `SenderSafety.OrderAndConservation` | iemnet_data.c:301-398 | in every reachable state the accepted copies are those handed to the send function, then the one in the thread's hand, then those drained, then the queue; what is handed over is a prefix of what was accepted, also after a failed send or a finish |
| `SenderSafety.ShutdownSafety` | iemnet_sender.c:184-223 | when the queue is freed the thread has ended, nobody is inside a pop, every copy ever made has been freed exactly once, and the only step left frees the sender |
| `SenderSafety.SenderFreedLast` | iemnet_sender.c:212-220 | the sender is freed only after its queue |
| `SenderSafety.UseCounterExact` | iemnet_data.c:284-296 | `used` is the number of threads between increment and decrement; none of them holds or requests the sender mutex, so waiting for `used` under that mutex closes no lock cycle; each mutex has at most one holder |
| `SenderSafety.FlagsOnlyFall` | iemnet_sender.c:194-201 | over any part of any run `keepsending` and `isrunning` go from 1 to 0 at most, and the histories only grow |
| `SenderSafety.AtMostOneMoreSend` | iemnet_sender.c:144-159 | after `keepsending` has become 0 at most one further call of the send function starts |
| `SenderSafety.AnswersOfSend` | iemnet_sender.c:166-182 | a queued copy is answered with at least its size, hence at least 1, a call that queues nothing with at least 0; after a first -1, or once the thread has ended, every later answer is -1 |
| `SenderCalls.EveryCallIsAnswered` | iemnet_sender.c:166-182 | in every reachable state the k-th answer is for the k-th call: a call is answered as queued only with a copy of all the bytes passed and at least their number, and with nothing queued only if it passed none |
| `SenderCalls.HandedIsGiven` | iemnet_sender.c:147-182 | the accepted chunks are, byte for byte and in order, those passed to the calls that were not refused, and what is handed to the send function is a prefix of them |
| `SenderCalls.HistoriesAreTrue` | iemnet_sender.c:149-182 | the histories these are stated about record the argument of each call and each answer of the send function |
| `SenderCalls.FailureIsFinal` | iemnet_sender.c:144-160 | a failed send is the last one in every continuation, and the thread ends only after a failure or because `keepsending` was lowered |
| `SenderCalls.FinishedBeforeJoin` | iemnet_sender.c:200-212 | whenever the thread is joined the queue has been finished and nobody is inside a pop |
| `SenderSafety.AnswerIsFillState` | iemnet_data.c:313-341 | in every reachable state an answer is -1 only if the thread has stopped, and otherwise the number of bytes in the queue at that step: as it is for a null chunk, with the chunk at its end for another |
| `SenderSafety.StoppedRefuses` | iemnet_sender.c:172-175 | with the thread stopped and no call past its test, only -1 is answered in any continuation |
| `SenderProgress.OnlyStuckState` | iemnet_data.c:361-375 | without spurious wakeups the only reachable unfinished state without a step is: the thread waits on an empty queue with `done` set while `queue_finish` waits for `used`; with the documented pop there is none |
| `SenderProgress.HangsExactlyWhenAtRisk` | iemnet_data.c:462-474 | once destroy has begun, the code can reach that state if and only if the thread can still come to an empty queue before the signal it would need is sent (`AtRisk`, a condition on the present state) |
| `SenderProgress.HangRun` | iemnet_sender.c:200-205 | from every state at risk there is a schedule that ends stuck, and it is constructed |
| `SenderProgress.CodeCanHang` | iemnet_sender.c:184-205 | destroying a sender right after creating it can end stuck |
| `SenderProgress.FairRunsFinish` | iemnet_sender.c:184-223 | in every infinite run that is fair to the send thread destroy returns: always with the documented pop, and from every state not at risk with the code |
| `SenderProgress.ThreadStepLowersRank` | iemnet_sender.c:144-161 | every step of the send thread lowers its rank |
| `SenderProgress.MainStepKeepsRank` | iemnet_sender.c:184-223 | no step of the main thread that is shutting down raises that rank |
| `SenderProgress.QuietStep` | iemnet_sender.c:200-220 | while the send thread cannot run, every step of the main thread lowers a second rank |
| `ChunkQueue.Queue.constructor` | iemnet_data.c:508-532 | a new queue is empty and unused |
| `ChunkQueue.Queue.Push` | iemnet_data.c:301-342 | the list now stands for the old sequence and the new chunk at its end; head, tail and byte count agree with it; the answer is the fill state; a null chunk changes nothing |
| `ChunkQueue.Queue.TakeHead` | iemnet_data.c:376-389 | the first chunk leaves the sequence, and both ends become null together |
| `ChunkQueue.Queue.PopNoblock` | iemnet_data.c:403-438 | gives the first chunk, or nothing exactly when the queue is empty |
| `ChunkQueue.Queue.PopEnter` | iemnet_data.c:350-398 | the blocking pop up to its first wait: pops, or goes to wait exactly when the queue is empty, with its use counted only while it is inside |
| `ChunkQueue.Queue.PopWoken` | iemnet_data.c:365-398 | the blocking pop after a wait: a finished queue gives nothing, full or not |
| `ChunkQueue.Queue.GetSize` | iemnet_data.c:445-454 | the byte count is the number of bytes in the queued chunks, and 0 exactly when the queue is empty |
| `ChunkQueue.Queue.Drain` | iemnet_data.c:490-495 | the loop of queue_destroy frees every queued chunk, in order, once |
| `ChunkQueue.EmptyExactlyAtZero` | iemnet_data.c:154-159 | no chunk is smaller than 1, so the sum is 0 only for the empty queue |
| `ChunkQueue.Queue.Perform` | iemnet_data.c:301-438 | any series of pushes and pops on the list does what it does on a sequence |
| `ChunkQueue.FirstInFirstOut` | iemnet_data.c:301-438 | and there: what came out, then what is inside, is what was inside, then what went in |
| `SenderRefinement.RunIsOps` | iemnet_data.c:326-397 | over any part of any run of both threads the pipeline's queue changes as by the pushes and pops of that part, and the accepted copies are the pushed ones |
| `SenderRefinement.PipelineIsQueue` | iemnet_data.c:301-438 | over every interleaving the queue holds what its pushes and pops leave in a sequence, and what the pops gave is what was handed over, is held by the thread, or was drained, in this order |
| `UdpTable.UdpServer.FindSender` | udpserver.c:200-213 | the first slot with that address, searching up to the first hole |
| `UdpTable.UdpServer.SenderAdd` | udpserver.c:222-272 | refuses when accept is off, refreshes a known sender, registers a new one under the next id if a slot is left |
| `UdpTable.UdpServer.SenderRemove` | udpserver.c:274-290 | the loop changes slot `id` only, which ends empty, and one client less is counted; or it reads beyond the table |
| `UdpTable.UdpServer.Compact` | udpserver.c:304-314 | the two-index loop leaves the clients that have not expired at the front, in order, and frees the others |
| `UdpTable.UdpServer.Recount` | udpserver.c:318-324 | the count becomes the length of the prefix without holes |
| `UdpTable.UdpServer.CompactAndClear` | udpserver.c:304-317 | with the clearing loop: those clients and nothing behind them |
| `UdpTable.UdpServer.SenderAutoremove` | udpserver.c:292-325 | guards, compaction, clearing and recount together are the scan `Scan` on values, for every table, with holes or without |
| `UdpTable.UdpServer.Socket2Index` | udpserver.c:147-156 | the first slot with that id, or -1; or it follows an empty slot |
| `UdpTable.UdpServer.MaxConnections` | udpserver.c:804-830 | resizes when the clients fit, otherwise changes nothing |
| `UdpRules.ResizeRule` | udpserver.c:804-830 | a number is taken if and only if it is at least 1 and leaves room for all clients; then there are that many slots, every client keeps its slot, and the rest are empty |
| `UdpTable.UdpServer.DefaultTarget` | udpserver.c:552-575 | stores the id of the chosen client, negated to exclude it, 0 for everybody; or it follows an empty slot |
| `UdpRules.TargetRule` | udpserver.c:552-575 | 0 resets to everybody, a number in range chooses that client or all but it, any other number changes nothing |
| `UdpTable.UdpServer.Disconnect` | udpserver.c:601-626 | removal, then a scan; or it follows an empty slot or reads beyond the table |
| `UdpRules.DropFails` | udpserver.c:601-618 | it follows an empty slot or leaves the table if and only if the client's slot is empty or the last of the table; beyond the count it does nothing |
| `UdpRules.DisconnectRule` | udpserver.c:601-637 | the k-th client is not counted afterwards and has been freed, nobody is freed twice, and a number out of range changes nothing |
| `UdpTable.UdpServer.DisconnectAll` | udpserver.c:640-646 | that for one index after the other, while the count goes down |
| `UdpTable.UdpServer.SendBytes` | udpserver.c:406-437 | one send; a refusal disconnects the client |
| `UdpTable.UdpServer.SendBut` | udpserver.c:441-456 | the pass over all clients but one, in the table as refusals change it |
| `UdpTable.UdpServer.Send` | udpserver.c:494-551 | sends to the target, to all but it, or, if it is gone, resets the target and broadcasts after a scan; refused sends included |
| `UdpTable.ScanDense` | udpserver.c:304-324 | a scan leaves a table without holes whatever it found |
| `UdpScan.ScanIsFilter` | udpserver.c:304-314 | the kept clients sit at exactly the positions of clients that have not expired, in increasing order; the freed ids are those at all other used positions, once each |
| `UdpFrees.ScanAtRest` | udpserver.c:297-302 | without a timeout, or if no time has passed since the last scan, nothing changes |
| `UdpFrees.ScanKeepsTheYoung` | udpserver.c:297-325 | otherwise a client is kept if and only if the time since it was last seen is at most the timeout; no holes stay, and the time of the scan is noted |
| `UdpFrees.ScanKeepsOrder` | udpserver.c:304-314 | those kept keep their order |
| `UdpFrees.ScanFreesTheOld` | udpserver.c:308-312 | a client is freed if and only if that time is longer than the timeout |
| `UdpFrees.RefusedIsDisconnected` | udpserver.c:432-435 | a client that is sent to by a default send and refuses is not counted afterwards and has been freed exactly once, whatever the target |
| `UdpFrees.UnrefusedSend` | udpserver.c:423-435 | if nobody who is sent to refuses, the default send is the one in which nobody refuses |
| `UdpFrees.BroadcastLeaves` | udpserver.c:494-518 | after a broadcast exactly the clients that refuse and were reached are gone, the others are where the scan put them, and one less is counted for each gone; without a target this is the default send |
| `UdpFrees.TargetRefuses` | udpserver.c:526-536 | a default send to one client leaves everything alone if it accepts and is its disconnection if it refuses |
| `UdpSending.LookupExactly` | udpserver.c:147-156 | a lookup follows an empty slot if and only if there is one before any slot with that id |
| `UdpSending.QuietReach` | udpserver.c:448-454 | a pass gets to a slot if and only if the refusals before it, each of which lowers the count, leave that slot in range |
| `UdpSending.BroadcastReachesAll` | udpserver.c:502-511 | a broadcast reaches every client the scan leaves if and only if none but the last refuses |
| `UdpSending.BroadcastOverruns` | udpserver.c:502-511 | it reads beyond the table if and only if the scan leaves the table full and only the last client refuses |
| `UdpSending.ExcludedExactly` | udpserver.c:441-456 | a pass to all but one client sends to that client if and only if the first refusal lets a scan run that moves it to a slot still ahead of the pass, and the pass gets there |
| `UdpRuns.StepKeepsInv` | udpserver.c:200-325 | every packet, message, scan, resize, default send and passing of time goes through without following an empty slot and keeps the table invariant, as long as nobody is removed but by expiry |
| `UdpRuns.RunsKeepTable` | udpserver.c:200-325 | every run without explicit removal keeps a prefix without holes that fits its slots, with pairwise distinct addresses and ids |
| `UdpRuns.AddRegisters` | udpserver.c:222-272 | with accept on, a sender is in the table afterwards with its age reset unless it is new and the table full; one whose host and port are both known keeps slot and id, any other gets the next of both; nothing else changes |
| `UdpRuns.NobodyJoins` | udpserver.c:227-229 | over every run with accept off, removals and refused sends included, nobody is added and nobody's age is reset |
| `UdpRules.AcceptOff` | udpserver.c:649-652 | from `accept 0` on nobody joins and nobody's age is reset, until accept is set again |
| `UdpRules.AcceptOn` | udpserver.c:649-652 | after `accept 1` a packet leaves its sender in the table with its age reset if and only if it was known or there was a slot |
| `UdpRules.TimeoutRule` | udpserver.c:654-657 | after `timeout t`, time passing and a scan, those are left who have been seen within `t`, or everybody if `t` is not positive |
| `UdpRuns.GateIsSoundCache` | udpserver.c:297-303 | after any run without removals and with time not running backwards: in the instant of the last executed scan, with a timeout not shorter than the one it used, skipping the scan gives the same table as running it |
| `UdpRuns.GateInAllRuns` | udpserver.c:297-317 | after any run at all, removals and refused sends included, in that instant and with such a timeout, running the scan would free nobody, and would leave the table alone if and only if the table has no holes |
| `UdpRuns.GateIsExact` | udpserver.c:300-314 | a closed gate is harmless if and only if nobody in the table is older than the timeout |
| `UdpRuns.GateMissesShorterTimeout` | udpserver.c:654-657 | a run in which shortening the timeout makes the closed gate keep an expired client |
| `UdpRuns.NeverComesBack` | udpserver.c:110 | over every run, removals and refused sends included, an id that has left the table never comes back |
| `UdpRuns.TargetNeverChanges` | udpserver.c:520-575 | after `target k`, through every run, removals and refused sends included: a default send goes to that client alone; or to others, and to the excluded one exactly as `ExcludedExactly` says; or finds it gone and resets the target; it never resolves to another client |
| `UdpRuns.TargetFollowsClient` | udpserver.c:520-575 | with clients leaving by expiry only: exactly that client, exactly all but it in order, or, after it has left, exactly everybody the scan leaves |
| `UdpHoles.RemoveOverruns` | udpserver.c:283-285 | a removal from a table without holes reads beyond it if and only if the table is full and its last client is to go |
| `UdpHoles.RemoveShiftsOnlyAtTheEnd` | udpserver.c:282-288 | otherwise the removal as written is sequence removal, and leaves no hole, if and only if it is asked for the last client |
| `UdpHoles.RemoveLosesLastClient` | udpserver.c:617-618 | if it is not, a scan that runs next filters the others without the old last client, which is in no slot and was not freed |
| `UdpHoles.HoleIsFollowed` | udpserver.c:147-156 | if no scan runs, as with the timeout of a new server: a lookup follows the hole if and only if the client is not in front of it, choosing a target if and only if the hole is chosen, and a default send aimed at a client that is not in front of it always does |
| `UdpHoles.HoleBreeds` | udpserver.c:203-213 | and a packet from a client behind the hole registers its address again, over the old last client |
| `UdpHoles.DisconnectAllFreesHalf` | udpserver.c:640-646 | if no scan runs, disconnecting everybody frees the first half, rounded up (or reads beyond a table of one slot that is full), leaves a count of the other half over nothing but holes, and the other half in slots nobody looks at |
| `UdpHoles.DisconnectAllWithScan` | udpserver.c:640-646 | if a scan can run, it runs after the first removal; of those it leaves the first stays, half of the rest is freed, rounded up, and the count covers the first and holes |
| `UdpHoles.DisconnectAllOfOne` | udpserver.c:640-646 | a single client goes, unless its slot is the only one; without clients nothing happens |
| `UdpHoles.ExcludedIsSentTo` | udpserver.c:441-456 | with the first client refusing, a scan able to run and nobody expired, a send to all but one client reaches that client wherever it is but in the first two slots or the last |
| `UdpHoles.ExcludedIsSentToInARun` | udpserver.c:441-456 | a run of a new server with four clients in which this happens |
| `TcpTable.TcpServer.constructor` | tcpserver.c:801-807 | a new server has 32 empty slots |
| `TcpTable.TcpServer.Disconnect` | tcpserver.c:530-547 | stays in the table if and only if `n + 1 < maxconnections`; then shifting removes exactly that client from the sequence, keeps the rest in order and frees it once |
| `TcpTable.OthersCloseUp` | tcpserver.c:540-544 | position by position: those before it stay, those after it move up by one |
| `TcpTable.ConnectThenDisconnect` | tcpserver.c:540-543 | a new server that takes clients and disconnects one stays in its table if and only if at least two slots were free |
| `TcpTable.TcpServer.Socket2Index` | tcpserver.c:187-196 | finds the client on that descriptor, or -1 exactly when there is none |
| `TcpTable.TcpServer.DisconnectClient` | tcpserver.c:550-558 | counts from 1; out of range changes nothing; leaves the table exactly when a client goes and there is no room |
| `TcpTable.TcpServer.DisconnectSocket` | tcpserver.c:561-567 | removes and frees the client on that descriptor, if any; leaves the table exactly when there is one and no room |
| `TcpTable.TcpServer.DisconnectAll` | tcpserver.c:570-576 | leaves exactly the clients at odd positions, in order, and frees those at even positions, in order, unless there are clients and no room |
| `TcpTable.DisconnectAllEmptiesOnlyOne` | tcpserver.c:570-576 | position by position: the first of every two is freed and the second stays, so nobody is left if and only if there was at most one |
| `TcpTable.TcpServer.ConnectPoll` | tcpserver.c:611-636 | a new connection joins at the end, or is closed when accept is off or the table full |
| `TcpTable.TcpServer.SendBytesClient` | tcpserver.c:306-330 | one send; a negative answer removes and frees that client, and leaves the table exactly when there is no room |
| `TcpTable.TcpServer.SendBytesClients` | tcpserver.c:344-351 | over a snapshot: the table ends as the clients whose send did not fail, in order, with the exact sequence of sends and frees; it is left exactly when some send fails and there is no room at the start |
| `TcpTable.TcpServer.Broadcast` | tcpserver.c:416-438 | the same for everybody |
| `TcpTable.TcpServer.SendButClient` | tcpserver.c:354-379 | the same for everybody but one |
| `TcpTable.StillThere` | tcpserver.c:344-351 | whoever's turn it is in the snapshot is still in the table |
| `TcpTable.SnapshotBroadcast` | tcpserver.c:306-379 | every selected client is sent to exactly once and never after it has been freed; exactly the selected clients whose send failed are freed, once each, and exactly they are gone |
| `TcpTable.BroadcastTreats` | tcpserver.c:416-438 | every client of a broadcast is sent to once, and is freed once and gone if and only if its sender answers below 0 |
| `TcpTable.ButTreats` | tcpserver.c:354-379 | the same for all but one, which is neither sent to nor freed and stays |
| `TcpTable.LeftInOrder` | tcpserver.c:344-351 | those who stay keep their order |
| `TcpReceive.TcpReceive.constructor` | tcpreceive.c:338-347 | all slots free, count 0 |
| `TcpReceive.TcpReceive.FindSocket` | tcpreceive.c:71-80 | the first slot with that descriptor, or -1 |
| `TcpReceive.Find` | tcpreceive.c:71-80 | nothing before the slot found holds the descriptor, and no slot does when the answer is -1 |
| `TcpReceive.TcpReceive.AddConnection` | tcpreceive.c:109-128 | fills the first free slot; fails exactly when there is none |
| `TcpReceive.TcpReceive.ConnectPoll` | tcpreceive.c:142-160 | counts an added connection, closes the descriptor of one turned away |
| `TcpReceive.TcpReceive.Disconnect` | tcpreceive.c:163-180 | frees the slot and closes its descriptor if its port is positive, else changes nothing |
| `TcpReceive.TcpReceive.DisconnectAll` | tcpreceive.c:184-191 | that for every slot in turn |
| `TcpReceive.TcpReceive.ReadCallback` | tcpreceive.c:82-104 | looks its own slot up by descriptor and disconnects it at the end of the stream |
| `TcpReceive.RunsKeepTable` | tcpreceive.c:71-191 | in every reachable state the count is the number of slots in use, descriptors are distinct, and each was closed as often as it was handed out, less one while it stands in its slot |
| `TcpReceive.RefusedExactlyWhenFull` | tcpreceive.c:109-160 | in every reachable state a new connection is turned away and closed if and only if all 128 slots are in use, and else goes with its address and port into the first free one; a failed accept changes nothing |
| `TcpReceive.CallbackFindsItsSlot` | tcpreceive.c:91-103 | in every reachable state the lookup of a callback finds its own slot; data changes nothing, and the end of the stream frees that slot, closes its descriptor and counts one less if its port is not 0 |
| `TcpReceive.CloseAllEmpties` | tcpreceive.c:184-191 | closing everything leaves no connection if and only if every connection has a positive port |
| `TcpReceive.CloseAllReleases` | tcpreceive.c:184-191 | then every descriptor ever handed out has been closed as often as it was handed out |
| `TcpReceive.PortZeroStays` | tcpreceive.c:165 | a connection from port 0 outlives its stream and closing everything |
| `TcpClient.TcpClient.DoDisconnect` | tcpclient.c:96-112 | gives back sender, receiver and socket in this order, those that exist |
| `TcpClient.TcpClient.DoConnect` | tcpclient.c:113-164 | the four ways an attempt can go and what each makes and gives back |
| `TcpClient.TcpClient.Connect` | tcpclient.c:174-201 | hangs up first if active, then attempts |
| `TcpClient.TcpClient.Disconnect` | tcpclient.c:203-218 | hangs up if active; forgets host, port, sender and receiver but not the descriptor |
| `TcpClient.TcpClient.Send` | tcpclient.c:222-242 | a refused send disconnects |
| `TcpClient.TcpClient.ReceiveCallback` | tcpclient.c:244-258 | the end of the stream disconnects |
| `TcpClient.TcpClient.Free` | tcpclient.c:323-327 | freeing the object disconnects |
| `TcpClient.ConnectDecides` | tcpclient.c:174-201 | after every run an attempt leaves held exactly the socket, and the sender and receiver if they could be made, all new, and everything else released |
| `TcpClient.SendDecides` | tcpclient.c:222-242 | after every run a send with a sender and a chunk hangs up and releases everything if and only if the answer is negative, and else changes nothing; without sender or chunk the answer is 0 |
| `TcpClient.ReceiveDecides` | tcpclient.c:244-258 | after every run the end of the stream hangs up and releases everything, and data changes nothing |
| `TcpClient.DisconnectDecides` | tcpclient.c:203-218 | after every run a disconnect and a free hang up and release everything |
| `TcpClient.RunKeepsInv` | tcpclient.c:174-258 | after every run the log of what was made and released follows the ownership rules and agrees with the fields |
| `TcpClient.OneSocketAtATime` | tcpclient.c:174-201 | at every moment of every run a resource is outstanding at most once, and at most one socket is |
| `TcpClient.SocketClosedLast` | tcpclient.c:96-112 | a socket is closed only while it is open and after every sender and receiver is gone |
| `TcpClient.ReleasedExactlyOnce` | tcpclient.c:203-218 | after every run each resource has been released as often as it was made (senders and receivers: once), except once less for those of the present connection; after a disconnect or free there is no exception, although `x_fd` is stale |
| `TcpClient.FlagIsLastAttempt` | tcpclient.c:196-199 | after every run `x_connectstate` is up if and only if the last attempt to connect succeeded with a descriptor other than 0, whatever came after it |
| `TcpClient.FlagTellsExactly` | tcpclient.c:203-218 | so it tells whether a connection is held if and only if the object is active and that attempt did not get descriptor 0, or is inactive and that attempt did not succeed with another one |
| `TcpClient.DisconnectLeavesFlag` | tcpclient.c:203-218 | a run in which it does not: connecting and disconnecting leaves the flag and the descriptor up with nothing held |
| `Chunks.CreateEmpty` | iemnet_data.c:154-179 | a chunk exists exactly for sizes from 1 on, with zero bytes and no address |
| `Chunks.CreateData` | iemnet_data.c:181-188 | holds exactly these bytes |
| `Chunks.CreateChunk` | iemnet_data.c:220-232 | the copy has the same bytes and address, but always the family AF_INET |
| `Chunks.CreateList` | iemnet_data.c:203-218 | the chunk holds the byte of every atom, in order; the empty list gives no chunk |
| `Chunks.FloatList.constructor` | iemnet_data.c:74-94 | all atoms of the buffer are the float 0 |
| `Chunks.FloatList.Resize` | iemnet_data.c:96-122 | a buffer that is large enough is kept with its contents, else replaced by one of zeros; all of it stays tagged as float |
| `Chunks.Chunk2List` | iemnet_data.c:235-252 | the list is exactly the chunk's bytes as floats, whatever the buffer held before |
| `Chunks.Streamout` | iemnet.c:177-191 | one message for each atom, or one for the list, or none without an outlet |
| `Chunks.SerializedMessage` | iemnet.c:183-187 | message i of serialized output is the list of byte i of the concatenated chunks alone, and there are no others |
| `Chunks.Receiver.ReceiveAll` | tcpserver.c:588-593 | any series of chunks through one reused list outputs each chunk's bytes, without stale data |
| `Chunks.IntegerPartExists` | iemnet_data.c:212 | every atom has exactly one integer part: the whole number within 1 of it on the side of 0, and 0 for what is no number |
| `Chunks.ListToChunkToList` | iemnet_data.c:203-252 | the byte of an atom, and the number that comes back, is its integer part modulo 256 |
| `Chunks.ByteListsSurvive` | iemnet_data.c:203-252 | it is the identity if and only if every atom is a whole number from 0 to 255 |
| `Chunks.ChunkToListToChunk` | iemnet_data.c:203-252 | chunk to list to chunk loses nothing |
| `Chunks.SerializedOutputForgetsChunks` | iemnet.c:183-187 | two series of chunks have the same serialized output if and only if their concatenated bytes are the same |
| `Chunks.PacketOutputKeepsChunks` | iemnet.c:188-190 | packet output is one list for each chunk, of the numbers of its bytes, from which the bytes come back |

## Left out

- The socket calls and `iemnet__connect`: their results are parameters. `tcpclient` attempts, answers of senders and accepted descriptors are arbitrary, but an accepted descriptor is not one still in the table.
- What the operating system takes of a chunk: a partial send counts as a send, and claims end where a chunk is handed to the send function.
- Pd's outlets, logging, symbols and class setup; output is taken not to call back into the object.
- Allocation failure, a failing `pthread_create`, and overflow of the byte count or of the ids: integers are unbounded.
- `iemnet__sender_getsize` as a step of the protocol: it is the critical section of a push without a chunk. It is a method of the list.
- Weak memory: the fields a thread reads are protected by the mutexes of the model.
- What C does after leaving a table or following an empty slot: a run ends there.
- TcpTable.TcpServer.Disconnect: says nothing of the state it leaves when it leaves the table; neither do the methods that call it.
- An empty list sent by udpserver, for which there is no chunk to write the address into (`udpserver.c:420`): sends carry at least one atom.
- UdpTable.UdpServer.MaxConnections: takes Pd's `resizebytes` to clear the memory it adds.
- `iemnet__closesocket` called with a client's id instead of a descriptor (`udpserver.c:139-141`).
- The default target of tcpserver, which is a descriptor, and descriptors the system reuses; numbers passed through Pd floats are exact.
- `sr_client`, the client number in tcpserver's status output, which shifting does not update.
- Clients are values in the tables; that a freed pointer is not used again is stated about descriptors and ids.
- Port binding and socket options; `tcpsend`, `udpsend`, `udpclient` and `udpreceive`, which are simpler relatives of the objects modelled here.
- `iemnet__register`, debug levels, build files, help patches.
