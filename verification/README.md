# Proofs about the socket servers and clients

A Dafny model of the parts of this collection of socket programs that contain a protocol, a table kept
in step with a descriptor set, a codec or a byte-conservation argument, with proofs of what those parts
are for.

## What is modelled

The concurrent programs are state machines. A `State` holds the variables of every process together
with the kernel objects they share (semaphore, alarm, descriptors, pipes, channels); an `Event` is the
kernel's choice of who moves next and what a call returns; `Step` is one statement that another process
can observe; `Exec` replays a whole sequence of events. The main results speak about every state that
some sequence of events leads to. A program that exits through `errexit` reaches a final state; every
call that can fail has an event in which it fails.

What one process does to its own tables, buffers and counters is written as classes and methods that
work in place. Their postconditions equate the new contents with functions of the old contents, and
the state machines are built from the same functions.

| module | program |
|---|---|
| `DelayedAllocation`, `DelayedAllocationProofs`, `DelayedAllocationRuns`, `DelayedAllocationService`, `DelayedAllocationEcho`, `DelayedAllocationLimits`, `DelayedAllocationLoss` | `chapter15/tcp_delayed_allctn_ad_persist_shm.c`: the master forks a slave when a request takes too long; slaves persist under a cap kept in shared memory |
| `SharedMemory` | `chapter15/glb_shm_obj.c`: one shared word and a binary semaphore; its functions are the steps of the three machines that share the object, and each machine proves that a process alone at the object makes a whole call |
| `AtomicCounter`, `AtomicCounterReplies`, `SplitCounter` | `chapter15/exc_15_udp_shm2.c` and `chapter15/exc_15_udp_shm.c`: the counter of requests with one lock around the update, and with one lock around each half |
| `SlavePool`, `PoolServer`, `PoolProofs`, `PoolStreams`, `PoolAnswers`, `PoolLeftovers`, `PoolLeftoverRun` | `chapter15/exc_15_6.c`: four preallocated slaves behind pipes |
| `EventLoop` | `chapter14/exc_14_3.c`: one select loop over several services and all their clients |
| `SuperServers` | `chapter14/superd.c`, `chapter14/exc_14_1.c`, `chapter14/exc_14_6.c`: index, search, reconfiguration |
| `CharRing` | `chapter14/sv_funcs.c`: the character generator |
| `EchoTester`, `EchoTesterProofs`, `EchoTesterProgress`, `EchoTesterFair`, `EchoTesterBuffer` | `chapter16/TCPtecho.c` against one `chapter11/TCPechod.c` per host |
| `ConnTable` | `chapter10/exc_10_7.c`: the table that holds a slot for 240 seconds |
| `XdrCodec`, `XdrInPlace`, `PartialIo`, `PartialIoAnswers`, `MessageTransfer` | `chapter19/xdr_common_endc.c`, `chapter19/rdwrnonblckio.c` and the client and server that use them |
| `FdSet` | `chapter12/exc_12_3.c`: the bit vector behind `FD_SET` |
| `Basics`, `Runs` | what several of these share: options, a table search, runs of a step function |

## Where the code does not do what it looks like

Each of these is a theorem about the code as it is, with the exact condition.

- A hand-over can lose bytes. `TCPechod` looks at the result of `write` only to see whether it is negative.
  A client that does not read keeps the master in a write; the alarm breaks the write off after some
  bytes, the new slave resumes behind it, and the rest of the buffer is gone. For every first chunk and
  every number of bytes moved there is such a run, which ends as if nothing were missing
  (`DelayedAllocationLoss.HandOverLoses`). Nothing is missing from a connection exactly when no write on
  it came back short (`DelayedAllocationProofs.EchoIntact`).
- A pool slot is freed without draining its pipes or its slave. A client's stream stays its own in every
  continuation exactly when its slot is drained at the moment it gets it
  (`PoolLeftovers.FaithfulExactlyWhenDrained`); empty pipes alone are not enough, since the slave may hold
  a segment it has read and not written. For every table a run exists in which a client receives a
  foreign byte (`PoolLeftoverRun.StreamsCanMix`).
- Locking read and write separately loses updates exactly when two read-to-write spans overlap
  (`SplitCounter.CountsExactlyWithoutOverlap`, `SplitCounter.LostUpdate`).
- The structure of 160 bytes is too small for some legal messages, which need up to 168
  (`XdrCodec.LegalNeedNotFit`). Decoding what was encoded gives the same message exactly when the message
  fits or the destination already held the number (`XdrCodec.RoundTripExactly`).
- `FD_ISSET` shifts the byte without masking it, so it is membership exactly when the descriptor is a
  member or no smaller member shares its byte (`FdSet.IsSetCorrectWhen`); with a mask it is membership.
- The concurrency cap bounds the slaves past the gate and no others. The counter is their number, at most
  MAXCRTLVL, plus the number of active slaves that have never passed it
  (`DelayedAllocationProofs.BeyondTheCap`), and there can be any number of those
  (`DelayedAllocationLimits.NoCapOnFirstService`).
- The connection table closes a served connection only if it finds the peer's port again. The
  connections left open are exactly those whose second port no active slot holds
  (`ConnTable.ClosedExactlyOnce`).
- The echo tester sends from the buffer that all its receives overwrite, so a later send does not repeat the
  pattern but what the receives of all hosts have left (`EchoTesterBuffer.WhatIsSent`).

## Model

| member | source | states |
|---|---|---|
| DelayedAllocationProofs.ConcurrencyCap | chapter15/tcp_delayed_allctn_ad_persist_shm.c:119-123 | in every reachable state of every interleaving at most MAXCRTLVL slaves have ever passed the gate and are not yet counted down, although read, test and increment are separate steps |
| DelayedAllocationEcho.CapIsReached | chapter15/tcp_delayed_allctn_ad_persist_shm.c:119-153 | a run after which exactly MAXCRTLVL slaves are past the gate, each able to accept one more connection by steps of its own, echo whatever chunks arrive, and finish it |
| DelayedAllocationService.WhoPasses | chapter15/tcp_delayed_allctn_ad_persist_shm.c:119-132 | a slave that reads the counter while at most MAXCRTLVL slaves are counted is in select and past the gate two steps of its own later, and one that reads more has terminated, however the others interleave |
| DelayedAllocationService.OnlyPassedSlavesAccept | chapter15/tcp_delayed_allctn_ad_persist_shm.c:118-143 | connections are accepted one at a time, by the master or a slave past the gate, and served by the process that accepted |
| DelayedAllocationProofs.GateAdmits | chapter15/tcp_delayed_allctn_ad_persist_shm.c:119-123 | when a slave at the gate copies the counter out, the slaves holding a low value or past the gate still number at most MAXCRTLVL |
| DelayedAllocationProofs.CounterIsExact | chapter15/tcp_delayed_allctn_ad_persist_shm.c:180-204 | semaphore and holders add up to one, holders exclude each other, the counter is the number of slaves counted up and not counted down, and a reaped slave is counted down unless the reaper is at it |
| DelayedAllocationProofs.BeyondTheCap | chapter15/tcp_delayed_allctn_ad_persist_shm.c:119-123 | the counter is the slaves past the gate plus the active ones that have never passed it, so at least counter - MAXCRTLVL of the active ones have not |
| DelayedAllocationProofs.OneServerEach | chapter15/tcp_delayed_allctn_ad_persist_shm.c:134-153 | a connection is unfinished iff some process echoes it; that process is unique and has its descriptor open |
| DelayedAllocationProofs.EchoIntact | chapter15/tcp_delayed_allctn_ad_persist_shm.c:158-178 | in every run and across any number of hand-overs the echoed bytes are the received ones in order, less what short writes left behind: received = echoed + pending + dropped; nothing is missing, while served and once finished, iff no write on the connection came back short |
| DelayedAllocationService.HowConnectionsEnd | chapter15/tcp_delayed_allctn_ad_persist_shm.c:148-178 | a connection changes only when its server moves; it becomes finished exactly when its server meets the end of its stream, abandoned exactly when its server terminates, and never changes after that |
| DelayedAllocationEcho.EchoesEveryChunk | chapter15/tcp_delayed_allctn_ad_persist_shm.c:158-178 | from any state in which a process is about to read, it can read and write back any chunks one after the other and is about to read again, with nothing else changed |
| DelayedAllocationEcho.ConnectionIsEchoed | chapter15/tcp_delayed_allctn_ad_persist_shm.c:134-178 | for every list of chunks a run whose connection, after each of them, has received and echoed exactly the chunks so far and is unfinished, and is finished at the end of the stream |
| DelayedAllocationLoss.HandOverLoses | chapter15/tcp_delayed_allctn_ad_persist_shm.c:79-93 | for every first chunk and every part of it that a write has moved when the alarm comes, a run that finishes the connection with the rest of the chunk lost |
| DelayedAllocationProofs.AlarmDiscipline | chapter15/tcp_delayed_allctn_ad_persist_shm.c:134-153 | the alarm is pending only between arming and `alarm(0)`, never in `accept`, and the master never forks more often than it accepts |
| DelayedAllocationProofs.DescriptorsTidy | chapter15/tcp_delayed_allctn_ad_persist_shm.c:111-154 | no process has a connection open other than the one it handles |
| DelayedAllocationProofs.TimeoutHandsOver | chapter15/tcp_delayed_allctn_ad_persist_shm.c:79-93 | a timeout moves the master's connection to exactly one new slave and leaves every other where it was; the slave takes over the bytes read and not begun to be written, and when the alarm comes inside a write the rest of the buffer, which is never empty, is counted as dropped |
| DelayedAllocationLimits.NoCapOnFirstService | chapter15/tcp_delayed_allctn_ad_persist_shm.c:67-94 | for every n a run ends with n live counted slaves, so nothing but the gate is capped |
| DelayedAllocationRuns.GateReads | chapter15/tcp_delayed_allctn_ad_persist_shm.c:119-121 | a slave alone at the gate makes one whole `read_glb_data`, and waits iff the object makes it wait |
| DelayedAllocationRuns.CountsUp | chapter15/tcp_delayed_allctn_ad_persist_shm.c:85 | a fresh slave alone at the object makes one whole `update_glb_data` that counts up |
| DelayedAllocationRuns.CountsDown | chapter15/tcp_delayed_allctn_ad_persist_shm.c:183-186 | so does the reaper, counting down |
| DelayedAllocationEcho.TerminatedIsCountedDown | chapter15/tcp_delayed_allctn_ad_persist_shm.c:180-188 | the master's reaper can take any terminated slave off the counter, which falls by one |
| SharedMemory.GlbShm.constructor | chapter15/glb_shm_obj.c:33-62 | the semaphore starts at 1 and the word at 0 |
| SharedMemory.GlbShm.SemWait | chapter15/glb_shm_obj.c:11-20 | takes one from a positive semaphore; on any other value the caller waits and nothing has changed |
| SharedMemory.GlbShm.SemSignal | chapter15/glb_shm_obj.c:22-31 | gives one back |
| SharedMemory.GlbShm.WriteGlbData | chapter15/glb_shm_obj.c:65-77 | once let in: the word becomes the data and the semaphore is as before; otherwise nothing changes |
| SharedMemory.GlbShm.ReadGlbData | chapter15/glb_shm_obj.c:80-92 | once let in returns the word; changes nothing |
| SharedMemory.GlbShm.UpdateGlbData | chapter15/glb_shm_obj.c:94-105 | once let in: the callback is applied to the word, the new word is returned, the semaphore is as before; otherwise nothing changes |
| AtomicCounter.MutualExclusion | chapter15/glb_shm_obj.c:11-31 | for any number of processes and every interleaving the semaphore value plus the number of its holders is 1, killed holders included |
| AtomicCounter.UndisturbedUpdate | chapter15/exc_15_udp_shm2.c:88-89 | a process alone at the object makes one whole `update_glb_data` and gets the new word; it waits iff the object makes it wait |
| AtomicCounter.LinearisableCounter | chapter15/glb_shm_obj.c:94-105 | completed calls return exactly 1, 2, ..., k in order of completion, and the word is k whenever the semaphore is free |
| AtomicCounter.AtMostFiveReplies | chapter15/exc_15_udp_shm2.c:83-109 | however requests are spread over processes at most five are answered, each with a count of its own from 1 to 5 |
| AtomicCounterReplies.WhichCountsAreAnswered | chapter15/exc_15_udp_shm2.c:92-109 | a process that gets a count of at most 5 back has replied to it two steps of its own later unless it was killed, and one that gets more never replies again but terminates, however the others interleave |
| AtomicCounterReplies.ShutdownKillsAll | chapter15/exc_15_udp_shm2.c:93-100 | in every run, when the master that shuts down terminates, all the others have terminated |
| AtomicCounterReplies.LimitIsReached | chapter15/exc_15_udp_shm2.c:83-109 | for any number of processes a run that answers exactly the counts 1 to 5 and then terminates them all |
| SplitCounter.CountsExactlyWithoutOverlap | chapter15/exc_15_udp_shm.c:93-97 | the counter never exceeds the number of completed writes, and equals it iff no two read-to-write spans of completed updates overlap |
| SplitCounter.LostUpdate | chapter15/exc_15_udp_shm.c:93-97 | a run with two completed writes that leaves the counter at 1 |
| SplitCounter.ReadsWord | chapter15/exc_15_udp_shm.c:93-97 | a process alone at the object makes one whole `read_glb_data` |
| SplitCounter.WritesWord | chapter15/exc_15_udp_shm.c:93-97 | and one whole `write_glb_data` |
| SplitCounter.SectionsExclude | chapter15/glb_shm_obj.c:65-92 | even here a single read or write is exclusive |
| SlavePool.PoolMaster.constructor | chapter15/exc_15_6.c:120-127 | the starting set is the master socket and the slaves' read ends, with a bound above them |
| SlavePool.PoolMaster.UpdateClientTbl | chapter15/exc_15_6.c:234-245 | the first free slot, and no other, gets the client; 1 and no change when there is none |
| SlavePool.PoolMaster.ClearClientTbl | chapter15/exc_15_6.c:247-258 | the first slot of the client, and no other, becomes free; no change when there is none |
| SlavePool.PoolMaster.FindIdxClientTbl | chapter15/exc_15_6.c:260-267 | the first slot that serves the client, or -1 |
| SlavePool.PoolMaster.FindRdFdThrdIdxClientTbl | chapter15/exc_15_6.c:269-276 | the first slot read through the descriptor, or -1 |
| SlavePool.PoolMaster.AdmitClient | chapter15/exc_15_6.c:146-152 | table, set and bound after an accept, and whether the client was admitted |
| SlavePool.PoolMaster.DropClient | chapter15/exc_15_6.c:160-164 | table and set after a client's stream has ended |
| SlavePool.TransformInPlace | chapter15/exc_15_6.c:206-223 | the in-place loop reverses everything but the last byte, for every length, and leaves the rest of the buffer alone |
| SlavePool.ReverseBodyInvolution | chapter15/exc_15_6.c:213-219 | the transformation is its own inverse |
| PoolProofs.AdmitKeeps | chapter15/exc_15_6.c:146-152 | admitting a new descriptor keeps table, set and bound in agreement and adds exactly that client |
| PoolProofs.DropKeeps | chapter15/exc_15_6.c:160-164 | dropping a client keeps them in agreement and removes exactly that client |
| PoolStreams.PoolAgreement | chapter15/exc_15_6.c:120-165 | in every reachable state the clients in the table are distinct, `afds` is the master socket, the read ends and those clients, all below `nfds`; the open connections are exactly those clients, at most four; the exit "client could not be found" is never taken |
| PoolStreams.RefusedAreClosed | chapter15/exc_15_6.c:143-152 | a refused client is open from its accept to the close that is the master's next statement, and never else; an open client that was admitted sits in the slot it was given |
| PoolStreams.ClosedOrOpen | chapter15/exc_15_6.c:140-165 | over every run that goes on, accepted clients = closings + open ones |
| PoolAnswers.RefusedExactlyWhenFull | chapter15/exc_15_6.c:140-153 | a request is refused iff every slot is taken, and otherwise gets a free slot |
| PoolAnswers.ClientIsServed | chapter15/exc_15_6.c:159-188 | a ready client's bytes go to the slave of its slot and nowhere else; at the end of its stream it is closed and its slot freed |
| PoolAnswers.SlaveIsHeard | chapter15/exc_15_6.c:156-203 | bytes of a ready slave go to the client that holds the slot, or to nobody if it is free |
| PoolAnswers.OpenUntilTheEnd | chapter15/exc_15_6.c:155-164 | a client stays open until the scan, at its ready descriptor, reads nothing |
| PoolStreams.StreamsReachTheirOwner | chapter15/exc_15_6.c:171-223 | a client that got a drained slot has received only the transformed segments of a split of a prefix of its own bytes, in order, without repetition |
| PoolStreams.NothingIsLost | chapter15/exc_15_6.c:171-223 | once nothing is in transit for such a client it has received the transformation of everything it sent |
| PoolLeftovers.FaithfulExactlyWhenDrained | chapter15/exc_15_6.c:247-258 | when a client gets a slot, its stream stays its own in every continuation iff the slot holds no bytes at that moment |
| PoolLeftovers.LeftoversReachTheClient | chapter15/exc_15_6.c:190-203 | from a slot with leftovers, a client that sent nothing can be sent a byte |
| PoolLeftoverRun.StreamsCanMix | chapter15/exc_15_6.c:247-258 | for every table there is a run from start-up that breaks the stream property |
| EventLoop.SuperServer.constructor | chapter14/exc_14_3.c:69-70 | empty set, bound 0 |
| EventLoop.SuperServer.Register | chapter14/exc_14_3.c:72-81 | registers all master sockets, and exits iff one does not fit below FD_SETSIZE |
| EventLoop.SuperServer.Visit | chapter14/exc_14_3.c:87-126 | what one look at a ready descriptor does to index, set and bound: accept, accept-serve-close of daytime, serve, close |
| EventLoop.Bookkeeping | chapter14/exc_14_3.c:69-130 | at every point of every run a descriptor is watched iff it is a master or has a service; descriptors with a service are the open clients; all are below `nfds`, at most FD_SETSIZE; accepted = closed + live |
| EventLoop.NoStaleReadiness | chapter14/exc_14_3.c:82-128 | with descriptors closed and reused during the scan, a ready client the loop reaches is the connection select reported, and its service is the one that accepted it |
| EventLoop.ClientStaysUnlessZero | chapter14/exc_14_3.c:118-126 | in every run a ready client the loop comes to stays open iff its handler does not return 0, and nothing else changes |
| EventLoop.MasterAccepts | chapter14/exc_14_3.c:90-116 | a ready master accepts one client of its service, left open iff the service is not daytime; the process exits iff the descriptor is too large; nothing else changes |
| EventLoop.OthersArePassedOver | chapter14/exc_14_3.c:86-88 | a descriptor that is not ready is passed over, and the scan ends at the bound |
| EventLoop.BoundNeverFalls | chapter14/exc_14_3.c:99-101 | no step of any run lowers `nfds` |
| SuperServers.SuperServer.constructor | chapter14/exc_14_6.c:74-77 | before the first configuration no service has a socket |
| SuperServers.SuperServer.ResetServerFrmCfg | chapter14/exc_14_6.c:162-184 | both phases in place give index, set, bound and sockets of the two-phase function |
| SuperServers.SuperServer.FindService | chapter14/exc_14_1.c:94-98 | the first service whose socket is fd, or none |
| SuperServers.ResetBuilds | chapter14/exc_14_6.c:162-184 | whatever the index held and however new and old descriptors coincide, after a reset the set is exactly the new sockets, each indexed by its service and below a bound that has not fallen |
| SuperServers.IndexRefinesSearch | chapter14/superd.c:82-100 | on every sequence of events, reconfigurations included, the indexed server and the searching one go through the same states and dispatch the same services |
| SuperServers.RunsTheOwner | chapter14/superd.c:91-99 | in either mode a ready descriptor runs the service whose socket it is, and nothing else runs a service |
| SuperServers.ScanRunsEachOnce | chapter14/superd.c:91-99 | a scan that comes to its end has run the service of each ready descriptor exactly once, in ascending order |
| SuperServers.ReconfiguresWhenAsked | chapter14/exc_14_6.c:80-84 | a reconfiguration happens exactly at a test that finds the flag set; the flag is set only by the signal and cleared only after one |
| SuperServers.IndexIsRight | chapter14/exc_14_6.c:80-103 | after any number of resets the set is the sockets of the table and the index holds for each what the search finds |
| SuperServers.SearchNeverFails | chapter14/exc_14_1.c:92-103 | the exit "service map entry not found" is never taken |
| CharRing.Generator.TCPchargend2 | chapter14/sv_funcs.c:85-117 | whoever asks, the next line of one common sequence is built; none when the client has closed |
| CharRing.FillLine | chapter14/sv_funcs.c:101-106 | the loop fills line j and leaves the ring where line j + 1 starts |
| CharRing.TCPchargend | chapter14/sv_funcs.c:119-137 | sends the same sequence of lines from its own start |
| CharRing.PeriodIs47 | chapter14/sv_funcs.c:101-106 | lines repeat every 47 lines |
| CharRing.NoShorterPeriod | chapter14/sv_funcs.c:101-106 | lines fewer than 47 apart differ |
| CharRing.LinesEqualExactly | chapter14/sv_funcs.c:101-106 | two lines are equal iff they are a multiple of 47 lines apart |
| EchoTester.EchoClient.constructor | chapter16/TCPtecho.c:34-48 | counters, set and host count once every host is connected |
| EchoTester.EchoClient.VisitWritable | chapter16/TCPtecho.c:69-71 | the write counter falls by what send took; shutdown iff it reaches zero now |
| EchoTester.EchoClient.VisitReadable | chapter16/TCPtecho.c:72-79 | the read counter falls by what recv delivered; the host is closed and counted off iff it reaches zero now |
| EchoTesterProgress.BytesConserved | chapter16/TCPtecho.c:85-109 | for every host `rc - wc` is the bytes in the two channels and the server's buffer, the received stream is a prefix of the sent one, `hcount` is the size of the set |
| EchoTesterBuffer.WhatIsSent | chapter16/TCPtecho.c:85-109 | in every run byte i of a send is byte i of the last receive longer than i, from whichever host, or of the pattern if there was none |
| EchoTesterBuffer.OverlayAt | chapter16/TCPtecho.c:98-109 | receives that overwrite the beginning of one buffer leave at place j the byte of the last one longer than j |
| EchoTesterProgress.ShutAndClosedOnce | chapter16/TCPtecho.c:69-79 | shutdown happens exactly once, with the last byte sent, and close exactly once, with the last byte received |
| EchoTesterProgress.NoDeadlock | chapter16/TCPtecho.c:63-81 | for any positive channel capacities, from every reachable state with an unfinished host some continuation moves a byte |
| EchoTesterFair.EveryScanMoves | chapter16/TCPtecho.c:66-80 | with an unfinished host, no server able to move and a select that reports every ready descriptor, every continuation that comes back to select has moved a byte, whatever counts the calls return |
| EchoTesterFair.ScanGoesOn | chapter16/TCPtecho.c:68-80 | a scan is never stuck, and each of its steps, whatever count it returns, moves a byte or brings the end of the scan nearer |
| EchoTesterProofs.StepWeight | chapter16/TCPtecho.c:85-109 | every step, of the client or of a server, lowers the measure by exactly the bytes it moves |
| EchoTesterProgress.MovesAreBounded | chapter16/TCPtecho.c:63-81 | measure and bytes moved always add up to four times the bytes to be echoed, so no run moves more |
| EchoTesterProgress.EndsWithAllHostsFinished | chapter16/TCPtecho.c:63-82 | no further byte can move iff `hcount` is 0, and then every host has got back all it was sent |
| EchoTesterProofs.ServerReadKeeps | chapter11/TCPechod.c:70-82 | the server's read keeps every host's conservation equation |
| EchoTesterProofs.ServerWriteKeeps | chapter11/TCPechod.c:70-82 | so does its write of part of what it holds |
| ConnTable.Server.constructor | chapter10/exc_10_7.c:20 | 100 empty slots |
| ConnTable.Server.Sweep | chapter10/exc_10_7.c:72-80 | clears exactly the active slots whose hold of 240 s is over when they are looked at |
| ConnTable.Server.TakeSlot | chapter10/exc_10_7.c:81-89 | the first free slot, and no other, gets the port; -1 and no change when there is none |
| ConnTable.Server.PreprocessingRequest | chapter10/exc_10_7.c:63-90 | sweep, then slot |
| ConnTable.Server.PostprocessingReply | chapter10/exc_10_7.c:92-109 | the first active slot with the port, and no other, is stamped; the connection is closed iff there is one |
| ConnTable.SlidingWindow | chapter10/exc_10_7.c:63-109 | for every request sequence and clock that never goes back, the distinct ports found at the closes of any last 240 s number at most 100, even when ports recur or change |
| ConnTable.RefusedOnlyWhenBusy | chapter10/exc_10_7.c:81-89 | a refusal implies at least 100 closes in the 240 s before it |
| ConnTable.RefusedExactly | chapter10/exc_10_7.c:72-89 | a request is refused iff every slot is active and was stamped at most 240 s before the sweep looked at it; otherwise it is served |
| ConnTable.ClosedExactlyOnce | chapter10/exc_10_7.c:48-59 | accepted = closed after service + refused + left open; the ones left open are exactly the served requests whose second port no active slot holds, and there are none when the port is the same both times |
| XdrInPlace.XEncodeMsg | chapter19/xdr_common_endc.c:7-20 | the cursor's writes fill the buffer as the encoding function says, with every ignored failure |
| XdrInPlace.XDecodeMsg | chapter19/xdr_common_endc.c:22-35 | the fields of the message are filled as the decoding function says |
| XdrCodec.WireFormat | chapter19/xdr_common_endc.c:13-16 | a message that fits is laid out as sections 4.1 and 4.11 of RFC 4506 say, in 16 bytes plus the padded strings |
| XdrCodec.RoundTripCut | chapter19/xdr_common_endc.c:7-35 | a message that does not fit loses its number and nothing else: the destination keeps its old one, cut to the length sent |
| XdrCodec.RoundTripExactly | chapter19/xdr_common_endc.c:7-35 | for every legal message, buffer and destination the round trip gives the same message iff it fits or the destination held the number already |
| XdrCodec.RoundTripGuaranteed | chapter19/xdr_common_decl.h:4-9 | the round trip works for every destination iff the message fits in the 160 bytes of the structure |
| XdrCodec.AnyBufferDecodes | chapter19/xdr_common_endc.c:22-35 | whatever bytes arrive, a legal message decoded into stays legal, and a name announced longer than its field leaves the field as it was |
| XdrCodec.LegalNeedNotFit | chapter19/xdr_common_decl.h:4-9 | a message within its field limits that needs 168 bytes |
| PartialIo.Endpoint.SendNonblk | chapter19/rdwrnonblckio.c:12-29 | skips the answers that block; the first other one decides: its count is returned and put on the wire, or the process ends |
| PartialIo.Endpoint.SendNBytes | chapter19/rdwrnonblckio.c:61-73 | result and bytes on the wire for every script of kernel answers; the last `return -1` is unreachable |
| PartialIo.Endpoint.RecvNonblk | chapter19/rdwrnonblckio.c:36-58 | returns -1 iff the first five answers block; otherwise the first that does not block decides: 0 for a closed peer, or the next bytes of the stream |
| PartialIo.Endpoint.RecvNBytes | chapter19/rdwrnonblckio.c:75-87 | result and buffer for every script; the last `return -1` is unreachable |
| PartialIo.SendCompletes | chapter19/rdwrnonblckio.c:61-73 | the full count is returned iff the script splits it into positive parts, would-blocks in between |
| PartialIo.RecvCompletes | chapter19/rdwrnonblckio.c:75-87 | the same with fewer than five consecutive would-blocks |
| PartialIo.ReturnsAllOrNothing | chapter19/rdwrnonblckio.c:61-87 | whatever happens, a result is the requested count, 0 or -1 |
| PartialIoAnswers.SendAnswers | chapter19/rdwrnonblckio.c:61-73 | returns 0 iff an answer takes no byte, and the process ends iff an answer is an error or a closed peer, with only blocks and moves of fewer than n bytes before it; what moved is on the wire |
| PartialIoAnswers.RecvAnswers | chapter19/rdwrnonblckio.c:75-87 | returns 0 iff the peer closes with fewer than n bytes moved and no five blocks in a row before; -1 iff five blocks in a row come with fewer than n bytes moved; the process ends iff an error comes in place of the close |
| PartialIo.Transfer | chapter19/rdwrnonblckio.c:61-87 | any split on one side and any other on the other side: both return the full count and the buffers are equal |
| MessageTransfer.SendMessage | chapter19/TCP_xdr_client.c:37-43 | encode, send in any chunks, receive in any other, decode: the message arrives iff it fits or the destination held the number already |
| FdSet.DescriptorSet.FdZero | chapter12/exc_12_3.c:20-23 | the empty set |
| FdSet.DescriptorSet.FdSet | chapter12/exc_12_3.c:6-10 | adds the descriptor and keeps every other |
| FdSet.DescriptorSet.FdClr | chapter12/exc_12_3.c:12-16 | removes the descriptor and keeps every other |
| FdSet.DescriptorSet.FdIsSet | chapter12/exc_12_3.c:18 | true iff the descriptor's byte has a member not above it |
| FdSet.IsSetCorrectWhen | chapter12/exc_12_3.c:18 | equals membership iff the descriptor is a member or no smaller member shares its byte |
| FdSet.IsSetIsWrong | chapter12/exc_12_3.c:18 | a set and a descriptor on which it is wrong |
| FdSet.MaskedIsMembership | chapter12/exc_12_3.c:18 | masked with 1 it is membership |

## Left out

- The concurrent loops are not methods: a loop whose statements interleave with other processes is a
  state machine over a state value. What one process does to its own tables between two system calls is
  a method in place.
- Socket setup, name resolution, connect timeouts, argument parsing, printing and the texts of `errexit`:
  no algorithm. Accepted descriptors are assumed free and, in the pool, nonzero.
- Faults of C memory: sizes passed to malloc and shmget, the uninitialised `afds` of `TCPtecho.c` and
  `alen` of the servers. Locals after `siglongjmp` keep their last value.
- Delayed allocation: jumping out of a half-finished reaper, an interrupted `semop`, a slave killed before
  it has counted itself up. SIGCHLD is not delivered while the alarm handler runs. The inactivity timeout
  of `select` can happen at any time. A write that has moved bytes may also be cut short at any time, as
  SIGCHLD does.
- Shared counters: the word is unbounded, so overflow of the counter is not modelled. A process that sends
  itself SIGTERM ends there and then.
- SharedMemory.GlbShm.SemWait: a caller that has to wait gets its answer at once and is left to call again;
  the waiting itself is a step that is not enabled in the state machines.
- Pool: pipes have unbounded capacity, so a master and a slave that block on full pipes are not modelled,
  nor is a slave that dies.
- EventLoop: all services use TCP, and the daytime and time handlers return 0, as `sv_funcs.c` has them; a
  handler that fails ends the process.
- Index and search: new sockets are below the limit of 256 that the size of the index sets; handling of the
  accepted client in a forked child is not part of the step.
- Echo tester: a count that is not positive; host names; timing output. Which bytes the test sends follows
  the code: the one buffer is also the receive buffer.
- Codec: record streams (`xEncodeRec` and its relatives) fragment inside a library. `sizeof` the structure
  is 160 for 4-byte integers.
- XdrInPlace.XDecodeMsg: a received string whose length equals the size of its field counts as a failure,
  where the library stores the terminator one byte behind the field (the first byte of the number, or the
  byte behind the structure). No message that xEncodeMsg makes of terminated fields has such a string.
- Partial I/O: the kernel's answers to one call sequence are a finite script; a call that still waits at
  its end has the outcome `Waiting`.
- `TCPtecho2.c` and `TCPtecho3.c`, the daytime, time and simple echo programs, the ping program, the fork
  and signal demonstrations: easy members, or weaker copies of the programs above.
