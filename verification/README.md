# client_epoll: model and proofs

The client keeps one connection per peer. Command lines arrive in a shared queue, from further
instances of the program and from the epoll waiter; a dispatcher parses each one and hands it to the
first peer that accepts it; every peer has a servant thread that connects, reads, writes and closes.
This project models the whole pipeline as one transition system over all thread interleavings and
kernel answers, proves invariants of every run, and models the sequential parts as methods with loops
and classes with fields, proved against the functions that the transition system uses.

| file | contents |
|---|---|
| `Types.dfy` | shared records |
| `Decimal.dfy`, `Tokens.dfy` | `std::from_chars`, `std::to_string`, `istringstream >> word` |
| `Transport.dfy` | the argument block of a second instance on its way into the queue |
| `Address.dfy`, `Command.dfy` | `validateAddrTCP`, the option loop of `interpretRequest` |
| `SafeQueue.dfy`, `Monitor.dfy` | `ThreadSafeQueue`: sequential class; mutex and condition variable under threads |
| `Waiter.dfy` | `Epoll::waiterFunction` |
| `Peers.dfy`, `Dispatcher.dfy` | `IO::request` and the dispatch scan, on values and as classes `IO` and `EndPoint` |
| `Connector.dfy`, `Reading.dfy` | `IO::connectTCP`; `IO::read` and the drain loop |
| `Pipeline.dfy`, `Kernel.dfy` | the transition system; descriptors; the sockets and their bytes |
| `Discipline.dfy`, `Stranded.dfy`, `Conservation.dfy`, `Runs.dfy` | invariants of every run |
| `Turns.dfy` | the servant's loop as a method and as steps of the transition system agree |
| `Witness.dfy` | runs that show the exceptions to be real |

## Where the code and its comments disagree

The model follows the code. Five promises that comments or call sites make do not hold of it; each one
is stated with the exact condition under which it holds.

* `IO.cpp:438-451` returns 0 for "all data read" and -1 for a failed read; the comments there and at
  `IO.cpp:343-355` want it the other way round, and want an end of file to leave the loop. Both readings
  are modelled (`Reading.Code`). As written, a READ on a healthy connection never ends
  (`Reading.HealthyConnectionSpins`): the loop is left exactly by a failed read
  (`Reading.WrittenLeavesOnFailure`), and until then the servant serves nothing else
  (`Runs.SpinsUntilFailure`). A failed read can also strand received data: epoll is edge-triggered, and nobody
  comes back to it. Of all steps exactly those for which `Stranded.Forgets` holds leave the data of a descriptor
  unaccounted for (`Stranded.StepAccounted`), so that over every run data is stranded exactly by such a step,
  and as intended never (`Runs.NoStrandedData`). `Witness.BytesAreStranded` is such a run.
* `IO.cpp:161-232` closes a candidate's socket in six places without resetting `fd`, and `IO.cpp:195-199`
  does not close it at all. The ledger of `connectTCP` is kept exactly for `Connector.CleanFailures`, and a
  closed socket is returned exactly for `Connector.ReturnsClosedSocket`. That descriptor variables name open
  sockets holds in every run without such a call and no longer holds right after one
  (`Pipeline.StepSteady`, `Pipeline.RunSteady`). A closed socket handed back leaves no unread data without
  somebody to come to it, but once the kernel gives its number out again two peers have the same number,
  and one may read or close the other's socket. A servant is alone with its open socket exactly as long as
  no `connectTCP` call collides with it (`Pipeline.StepLoose`, `Pipeline.RunLoose`). A peer misses its own
  data exactly by a failed read, by a command that goes to another holder of the number, or by being
  assigned a number whose data is already reported (`Stranded.Misses`, in `Stranded.StepAttended` and
  `Runs.OwnDataAttended`); the last two need a collision. `Witness.NumberReuseSteals` and
  `Witness.NumberIsInherited` are runs with the one and the other: in both, the data stays accounted for,
  by the other peer.
* `IPeer.h:27` leaves `_port` uninitialised; the model takes its value as a parameter (`junk`). A
  request for a new address finds its peer at the second try exactly when that value is 0
  (`Peers.SecondRequest`, `Runs.SecondCommand`). The peers that own an address are a prefix of the vector exactly
  until a request claims a peer behind one whose port started with another value, step by step
  (`Peers.DispatchOwnersFirst`) and in every run (`Runs.AssignedPrefix`); `Peers.DeadPeerIsPassed` and
  `Witness.DeadPeerFirst` show it failing.
* `EndPoint.cpp:49-65` has room for four octets. A fifth token after four valid ones writes past the
  array; the model's answer is `Overrun`, exactly then (`Address.AcceptedByNumbers`), and the client's model
  halts, for exactly the command lines that `Command.OptionMeaning` names. Fewer than four octets, and
  text after a number, are accepted (`Address.NotOnlyQuads`, `Address.TrailingDotAccepted`).
* `EndPoint.cpp:160,179` throw in the dispatcher's thread, where nothing catches: the model halts. This
  happens exactly as `Command.OptionMeaning` says; over every run the client ends exactly at the first
  line that throws or overruns, and at no rejected one (`Runs.EndsExactly`).

## Choices

* Steps of the transition system are: one push, one pop by the dispatcher, one dispatch scan, one pop by a
  servant (with its write, if it is a WRITE), one `connectTCP` call, the assignment of `_fd`, the
  registration with epoll, one read, one clear, one close with `_fd = CLOSED`, arrivals, hang-ups, one
  return of `epoll_wait`, one command pushed by the waiter. That a queue operation is one step is not an
  assumption about its critical section: module Monitor lets other threads move between the test of the
  wait, the sleep, `front`, `pop_front`, the insertion and the notification, and proves from the mutex
  that the effects and results are those of single operations in lock order, with no wakeup lost.
* The kernel is nondeterministic: new descriptors are numbers not open at that moment; every stage of a
  connection attempt, every read and every event mask is arbitrary; a registered socket raises an edge
  whenever data or an end of file arrives, and registration raises one if the socket is readable.
  Registration may fail.
* A new peer binds its connections to the address of the request that appended it (`EndPoint.cpp:231`,
  `IO.cpp:168-191`), as in the code.
* Only plain TCP: every peer is constructed with `ssl == false` (`EndPoint.cpp:97`, `EndPoint.cpp:231`).

## Model

| member | source | states |
|---|---|---|
| Decimal.ScanPrinted | EndPoint.cpp:172 | for every int and every following text that starts with no digit, printing and scanning gives the number back |
| Decimal.ScanMeans | EndPoint.cpp:33 | scanning gives n iff n is in range and is the number that the text starts with; it fails iff the text starts with none or with one out of range |
| Decimal.ScanIntMeans | EndPoint.cpp:172 | the same for an int, with a minus sign before the digits |
| Tokens.SpacesExactly | EndPoint.cpp:147 | the six white-space characters of the C locale |
| Tokens.WordsAcrossSpace | EndPoint.cpp:140-147 | a space separates words: none is joined across it, lost or added |
| Tokens.WordsOfJoin | EndPoint.cpp:194 | words joined by single spaces read back as the same words |
| Transport.ReplaceNul | main.cpp:146 | in place, every NUL of the buffer becomes a space and nothing else changes |
| Transport.Flatten | main.cpp:135-148 | nothing without arguments, else the text from the first argument to the end of the last, spaced |
| Transport.Receive | main.cpp:70-85 | the text queued is the message up to its first NUL, unless the message fills the buffer and the closing NUL goes past its end |
| Transport.ArgumentsArrive | main.cpp:141-146 | for every contiguous argument block, the words queued are the words of each argument in order |
| Address.ValidateAddrTCP | EndPoint.cpp:22-68 | the octet loop over the token list returns `Validate` |
| Address.ValidateExactly | EndPoint.cpp:22-68 | nonempty ip iff acceptable, then the text before the colon and the port; array overrun iff a fifth token follows four good ones |
| Address.AcceptedByNumbers | EndPoint.cpp:22-68 | accepted iff the port text starts with a number from 1 to 65535 and each of at most four tokens with one up to 255, the first not 0; overrun iff the first four do and more follow |
| Address.BadOctetRejected | EndPoint.cpp:49-58 | a token among the first four with no number, one above 255, or a first 0: the ip comes back empty |
| Address.BadPortRejected | EndPoint.cpp:26-38 | no colon, or a port with no number, 0 or above 65535: empty ip and port 0 |
| Address.OctetAbove255 | EndPoint.cpp:49-58 | a quad whose last octet is printed from any number above 255 is rejected |
| Address.PiecesExactly | EndPoint.cpp:43-47 | the stretches hold no dot and, with dots between them, are the text |
| Address.SplitExactly | EndPoint.cpp:43-47 | the tokens are the stretches, without an empty one after a final dot |
| Address.CheckOctetsExactly | EndPoint.cpp:51-67 | from any token on, the octet check passes iff every remaining token passes and there are at most four |
| Address.QuadsAreAccepted | EndPoint.cpp:22-68 | every IPv4address of section 3.2.2 of RFC 3986 with nonzero first octet and every port 1 to 65535 come back unchanged |
| Address.NotOnlyQuads | EndPoint.cpp:43-65 | one octet, and text after the octet and the port, are accepted too |
| Address.TrailingDotAccepted | EndPoint.cpp:43-47 | a dot after the last octet is accepted |
| Command.InterpretRequest | EndPoint.cpp:133-214 | the option loop computes `Parse` |
| Command.OptionMeaning | EndPoint.cpp:139-214 | when a line is accepted, when it kills the client, when it overruns the octet array, and address, descriptor, kind and message of an accepted line, without the loop |
| Command.RunMeans | EndPoint.cpp:147-214 | the same from any intermediate state of the loop |
| Command.FatalExactly | EndPoint.cpp:160-179 | a line throws or overruns iff its last option lacks its argument with nothing wrong before, or a bad address comes before an unexpected word |
| SafeQueue.ThreadSafeQueue.constructor | ThreadSafeQueue.h:18 | a new queue is empty |
| SafeQueue.ThreadSafeQueue.Push | ThreadSafeQueue.h:20-30 | appends the value |
| SafeQueue.ThreadSafeQueue.PushFront | ThreadSafeQueue.h:31-41 | prepends the value |
| SafeQueue.ThreadSafeQueue.Pop | ThreadSafeQueue.h:42-57 | removes and returns the first value; blocks on the empty queue |
| SafeQueue.ThreadSafeQueue.Clear | ThreadSafeQueue.h:58-65 | empties the queue |
| SafeQueue.FirstInFirstOut | ThreadSafeQueue.h:20-65 | without `push_front`, values popped and left are a subsequence of those pushed; without `clear`, all of them |
| Monitor.StepExclusive | ThreadSafeQueue.h:20-65 | the thread that owns the mutex is the only one inside a critical section |
| Monitor.StepInformed | ThreadSafeQueue.h:42-57 | under the mutex, what a thread has tested or copied stays true until it acts on it; so `front` and `pop_front` never meet an empty deque |
| Monitor.StepAttended | ThreadSafeQueue.h:29-48 | no step leaves a sleeper with more items than threads bound to look at them, although test and sleep are two steps |
| Monitor.StepLinearized | ThreadSafeQueue.h:20-65 | each step keeps the effects a legal deque run and every call matched to its own effect, although copy and removal are two steps |
| Monitor.InnerRunsEnd | ThreadSafeQueue.h:20-65 | a thread that holds the mutex has a bounded number of steps of its own left, whatever it does |
| Monitor.HolderLeaves | ThreadSafeQueue.h:20-65 | and its own steps give up the mutex |
| Monitor.TestingTakes | ThreadSafeQueue.h:45-56 | a pop that tests a nonempty queue removes the front and returns it, by its own steps |
| Monitor.TestingSleeps | ThreadSafeQueue.h:45-48 | on an empty queue it sleeps, without the mutex |
| Monitor.EnteringTakesEffect | ThreadSafeQueue.h:20-65 | a call that finds the mutex free gets it and takes effect: push, push_front, clear, and pop of a nonempty queue |
| Monitor.NoLostWakeup | ThreadSafeQueue.h:20-65 | in every reachable state the deque is unbroken, and a sleeper beside a nonempty queue means as many pending wakeups as items and a thread whose own steps give up the mutex or, if it is free, take the front |
| Monitor.EveryCallEnds | ThreadSafeQueue.h:20-65 | in every reachable state the holder of the mutex gives it up within five steps of its own, and its call takes effect |
| Monitor.Linearizable | ThreadSafeQueue.h:20-65 | in every reachable state the calls are linearized in lock order, with their results |
| Waiter.HandleWait | Epoll.cpp:52-85 | pushes one command per reported event in order; exits iff the wait failed for good |
| Waiter.CommandRoundTrip | Epoll.cpp:68-83 | a printed command parses back to a request on the event's descriptor |
| Waiter.BatchRoundTrip | Epoll.cpp:66-84 | a whole batch does, with CLOSE iff a hang-up or error bit is set without EPOLLIN |
| Peers.OwnerReceives | IO.cpp:56-72 | a request that names an owned address and no descriptor goes to its owner's queue and changes nothing else |
| Peers.AcceptedExactly | IO.cpp:56-75 | a request is taken iff its address has an owner, its descriptor a holder, or it is by address and a peer is free; else exactly one peer is appended |
| Peers.DispatchRoutable | EndPoint.cpp:218-232 | dispatch keeps addresses complete and distinct, owners before free peers, and non-owners disconnected and idle |
| Peers.DispatchOwnersFirst | EndPoint.cpp:218-232 | a dispatch keeps the owners a prefix of the vector iff it does not claim a free peer behind one whose port started nonzero |
| Peers.NeverFirstAgain | EndPoint.cpp:218-232 | owners that are not a prefix never come to be one |
| Peers.DeadPeerIsPassed | IPeer.h:27 | a first peer with a nonzero port and one new address asked for twice: the second peer owns it, the first nothing |
| Peers.SecondRequest | EndPoint.cpp:218-232 | the second of two requests for an address is accepted iff the first was or the new peer's port started at 0 |
| Peers.EmptyIpGoesNowhere | IO.cpp:56-59 | an empty ip without a descriptor is accepted by no peer |
| Connector.ConnectTCP | IO.cpp:78-287 | the candidate loop returns and leaves open what `Attempt` says |
| Connector.AttemptExactly | IO.cpp:104-286 | for every candidate list: the first that connects, or what the last attempt left; and exactly the sockets whose `setNonBlock` failed stay open |
| Connector.JudgeByReports | IO.cpp:145-276 | how an attempt ends, in terms of what each system call reports |
| Connector.ConnectedSocketReturned | IO.cpp:104-286 | the open socket returned is that of the first candidate set up, non-blocking, and connected at once or after EINPROGRESS without error |
| Connector.NothingConnects | IO.cpp:104-286 | otherwise the last candidate's number is returned iff it had a socket and did not fail in one of the three checks after `select` |
| Connector.FreshExactly | IO.cpp:145 | the kernel's promise about socket numbers, without the loop |
| Connector.TidyExactly | IO.cpp:104-286 | first connected socket or CLOSED with everything else closed, iff no `setNonBlock` fails before and the last failure has no socket or resets the variable |
| Connector.ReturnsOpenOrNothing | IO.cpp:159-234 | a closed socket is returned iff nothing connects and the last attempt closed its socket without resetting the variable |
| Connector.RefusedIsReturned | IO.cpp:201-208 | one refused candidate: its closed socket is returned |
| Reading.DrainLoop | IO.cpp:339-365 | the read loop ends, counts, turns into CLOSE and clears the queue as `Drain` says |
| Reading.IntendedDrainCompletes | IO.cpp:339-365 | as intended, for any buffer and chunking the drain ends, counts every byte and closes iff end of file |
| Reading.WrittenDrainSpins | IO.cpp:438-459 | as written, no drain without a failed read ends, and after the last byte the request is CLOSE and the queue gone |
| Reading.WrittenLeavesOnFailure | IO.cpp:342-347 | as written, the loop is left iff some read fails |
| Reading.HealthyConnectionSpins | IO.cpp:438-459 | five bytes on a healthy connection: two reads as intended, any number as written |
| Dispatcher.IO.constructor | IO.cpp:22 | a new peer: no address, the given local address, port as found in memory |
| Dispatcher.IO.Request | IO.cpp:46-76 | accepts iff `Accepts`, claims the address if free, queues the request |
| Dispatcher.IO.ServeOne | IO.cpp:309-402 | one turn of the servant's loop: drop, connect until connected, drain, write or close |
| Dispatcher.TurnMeans | IO.cpp:320-375 | a WRITE writes its message iff connected, a CLOSE closes the socket and disconnects, a CONNECT when connected does nothing, and whatever else a disconnected peer gets is lost |
| Dispatcher.ConnectTurnMeans | IO.cpp:323-335 | a CONNECT whose first attempt establishes a connection ends with that open socket |
| Dispatcher.IntendedReadTurnMeans | IO.cpp:337-366 | as intended, a READ on a healthy connection keeps it and the queue, or at the end of file closes it and clears the queue |
| Dispatcher.EndPoint.constructor | EndPoint.cpp:94-97 | starts with one peer |
| Dispatcher.EndPoint.Offer | EndPoint.cpp:218-227 | the scan queues the request at the first peer that accepts, or nowhere |
| Dispatcher.EndPoint.InterpretRequest | EndPoint.cpp:133-234 | a parsed line is queued at the first accepting peer or appends one; otherwise nothing changes |
| Pipeline.RejectedScan | EndPoint.cpp:210-213 | a rejected line changes nothing but its recorded fate |
| Kernel.RegisterRegisters | Epoll.cpp:28-42 | after a successful registration the socket is registered, whatever it held, and what it held is reported |
| Kernel.StepOpen | IO.cpp:104-286 | sockets come by connectTCP, empty and unregistered, and go exactly by a close of their number |
| Kernel.StepSocket | IO.cpp:404-459 | in every step: bytes change by arrival and read alone, the end of file and the registration stay, the edge follows arrivals, registration and report |
| Kernel.RunRegistered | Epoll.cpp:28-42 | a registered socket is registered in every state of a run iff nobody closes its number |
| Kernel.RunBytes | IO.cpp:339-365 | over every run, bytes that arrive are read and recorded by a servant, or still in the socket, or discarded by a close |
| Kernel.KernelIsFree | Epoll.cpp:54-66 | which arrivals, reads and reports the kernel may choose |
| Pipeline.StepShape | IO.cpp:309-402 | every step keeps the routing invariant and each servant's place consistent with its descriptor |
| Pipeline.DialDescriptors | IO.cpp:378-393 | after a connection attempt descriptors are in order iff it did not hand back a closed socket |
| Pipeline.StepSteady | IO.cpp:320-402 | live descriptors are open and distinct and nothing else is open but leaks: kept by each step iff it does not dial a closed socket |
| Pipeline.RunSteady | IO.cpp:320-402 | in every state of a run iff the run makes no such call |
| Pipeline.StepLoose | IO.cpp:320-402 | a servant stays alone with its open socket in each step iff it is no connection attempt that opens a number it shares |
| Pipeline.RunLoose | IO.cpp:320-402 | in every state of a run iff the run makes no such attempt, closed sockets handed back or not |
| Pipeline.ClosedBeforeReused | IO.cpp:159-234 | a run that never hands back a closed socket has no such attempt |
| Discipline.StepDisciplined | IO.cpp:309-402 | every step keeps every servant's trace to the connect, use, close pattern |
| Discipline.RunDisciplined | IO.cpp:309-402 | so does every run |
| Discipline.TouchesOwnSocket | IO.cpp:336-375 | with descriptors in order, every read, write and close is of an open socket that the servant alone holds, and a close closes just that one |
| Discipline.RunLive | IO.cpp:159-234 | without a closed socket handed back, every descriptor opened was open |
| Discipline.NothingAfterClose | IO.cpp:320-375 | after a close no read of any outcome, no write and no close until a CONNECT popped later has got that descriptor |
| Discipline.ClosedBetweenOpenings | IO.cpp:325-375 | between two connections of a peer the first is closed |
| Stranded.WakesItsHolder | IO.cpp:56-70 | a waiter's command is dispatched to the one peer that holds the descriptor |
| Stranded.StepHasHolder | IO.cpp:320-402 | a registered socket stays some peer's in every step |
| Stranded.StepAccounted | IManager.h:17 | for each descriptor, whatever connectTCP has handed back: unread registered data stays accounted for in a step iff the step is not the last attending servant's failed read |
| Stranded.RunAccounted | IManager.h:17 | so in every state of a run iff the run has no such step |
| Stranded.StepAttended | IManager.h:17 | for each peer, whatever connectTCP has handed back: the peer attends to its unread data after a step iff the step is none of the three ways to miss it |
| Stranded.StepNoneStranded | IManager.h:17 | the same for all peers at once |
| Stranded.RunAttended | IManager.h:17 | so in every state of a run iff the run has no such step |
| Stranded.RunAlone | IManager.h:17 | in a run without a collision at the peer, the only such steps are failed reads |
| Stranded.AloneIsAccounted | IManager.h:17 | a peer that is alone with its open socket attends to its data iff the data is accounted for at all |
| Stranded.RestHasNothingUnread | IManager.h:17 | when the client has no step of its own left to take without a failure, nothing that is accounted for is unread |
| Stranded.AttendedMoves | IManager.h:17 | while an attended peer has unread data, the client can take such a step |
| Conservation.RoutedToExactly | EndPoint.cpp:219-227 | a peer's list is exactly the commands routed to it, in push order |
| Conservation.StepConserved | EndPoint.cpp:101-106 | every step conserves the commands: order, numbers, contents, addresses, results, and what each busy servant works on |
| Conservation.StepAtWork | IO.cpp:309-402 | a servant between two pops is at work on the last command it popped, of the kind its place belongs to |
| Conservation.ExactlyOnePlace | IO.cpp:309-377 | every command pushed is in exactly one place: waiting, in hand, refused, spent on a new peer, queued, in progress or finished |
| Conservation.PoppedInOrder | IO.cpp:314-321 | a servant pops commands routed to it, increasing, each at most once |
| Runs.EveryRun | EndPoint.cpp:94-106 | all of discipline and conservation in every reachable state |
| Runs.ScanHalts | EndPoint.cpp:103-106 | a dispatch ends the client iff its line is fatal; a rejected line leaves everything as it was |
| Runs.EndsExactly | EndPoint.cpp:94-106 | in every reachable state the client has ended iff a line dispatched so far is fatal, and that is the last one |
| Runs.NobodyIsStuck | IO.cpp:309-377 | a servant with a request or in the middle of one, the dispatcher with a command and the waiter with an event can always take a step |
| Runs.StepQueue | IO.cpp:56-72 | a peer's queue grows at the back by a request routed to it, loses its front to its servant and is emptied by the clear of a READ, and changes in no other way |
| Runs.DroppedExactly | IO.cpp:320-321 | in every reachable state a servant has dropped exactly the commands other than CONNECT that it popped while disconnected |
| Runs.LocalAddresses | EndPoint.cpp:231 | in every reachable state the first peer binds to the client's own address and each later one to the address of the command that appended it |
| Runs.RegisteredDataAccounted | Epoll.cpp:28-42 | from a successful registration to the close the socket stays registered and its unread data accounted for, unless a step forgets it |
| Runs.EveryByte | IO.cpp:339-365 | from the start: bytes arrived equal bytes read and recorded, plus bytes in the socket, plus bytes discarded by closes |
| Runs.NoStrandedData | IManager.h:17 | from the start, for every run and descriptor: data is accounted for in every state iff no step forgets it, always as intended; a client at rest then has read it |
| Runs.OwnDataAttended | IManager.h:17 | from the start, for every run and peer: it attends to its data in every state iff no step misses it; without a collision only failed reads do; alone with its number it attends to whatever is accounted for |
| Runs.DescriptorsInOrder | IO.cpp:159-234 | from the start: without a closed socket handed back, descriptors are in order, every servant is alone with its own and nothing collides |
| Runs.ReopenedAfterClose | IO.cpp:320-375 | in every reachable state: after a close the next use comes after a later CONNECT got that descriptor, open unless some attempt handed back a closed one |
| Runs.WrittenAsTyped | EndPoint.cpp:183-196 | what is written is the joined message of a pushed line with "-m", at the owner of the address it names |
| Runs.OwnerForEver | IO.cpp:56-67 | an owned address stays with its peer and later requests for it go there |
| Runs.SecondCommand | EndPoint.cpp:218-232 | two commands for an address with any other steps between: the second is accepted iff the first was or the junk port is 0 |
| Runs.NeverClaimed | IPeer.h:27 | with another port the appended peer is never claimed and the request stays unmatched |
| Runs.PeersCounted | EndPoint.cpp:228-232 | the vector grows by one per unmatched command and never shrinks |
| Runs.RunOwnersFirst | EndPoint.cpp:218-232 | from any state, owners are a prefix after a run iff they were before and the run claims no peer behind a dead one |
| Runs.AssignedPrefix | IO.cpp:56-70 | in every reachable state: distinct addresses, all others idle and disconnected, owners first iff no dead peer was passed; so with zero ports |
| Runs.SpinsUntilFailure | IO.cpp:340-365 | as written, a servant in its read loop only reads, in every run, until a read fails |
| Runs.DrainRefines | IO.cpp:339-365 | the loop of `Reading` is the servant's own steps in the client, with the same end, queue and byte count, on an open descriptor or a closed one |
| Turns.TurnRefines | IO.cpp:309-402 | a turn of `Dispatcher.IO.ServeOne` with fresh sockets and answers that the descriptor, open or closed, can give is a possible schedule of the client: same peer, open descriptors, written messages and end |
| Turns.DialsRefine | IO.cpp:325-334 | the retry loop of a CONNECT is the client's connection attempts one after the other, possible for fresh sockets |
| Turns.ScanRefines | EndPoint.cpp:133-234 | a dispatch in the client does to the peers what `Dispatcher.EndPoint.InterpretRequest` does, and ends the client iff that thread dies |
| Witness.BytesAreStranded | IO.cpp:438-451 | as written, a run from the start that leaves received bytes with nothing to account for them |
| Witness.NumberReuseSteals | IO.cpp:201-208 | a run from the start, without any read, in which the command for a peer's bytes goes to the peer that was handed their number closed, and that peer can read them |
| Witness.NumberIsInherited | IO.cpp:201-208 | a run from the start in which a peer is assigned the number under which another one's reported bytes wait |
| Witness.DeadPeerFirst | IPeer.h:27 | a run from the start after which the second peer owns the address and the first nothing |
| Witness.ClosedSocketIsKept | IO.cpp:201-208 | from any state with a connecting servant, one refused candidate leaves a closed descriptor in use |

## Left out

- The timer thread (`EndPoint.cpp:108-120`): its callback throws at once (`IO.cpp:41-44`), so the code as it stands ends there; the model is of the client without it.
- TLS (`TLS.cpp`, the SSL branches of `IO.cpp`): never enabled by the two construction sites.
- Windows and process plumbing: `MailSlot*`, `Lock*`, `IOCP.h`, `WinSockInit.h`, `ProcessInstance.h`, `getopt`, `mq_*` calls and their failures; logging and the database stubs.
- Data races on `_fd` and `_peer`: the threads interleave at the steps listed under Choices.
- Reuse of a descriptor number between a close and `_fd = CLOSED`: the two are one step. A command for a reused number goes to whoever holds it when it is dispatched.
- Data on a socket whose registration with epoll failed: nothing reports it, and the theorems about unread data are about registered sockets.
- Integer width of `all_reads`: counted without bound.
- Dispatcher.IO.ServeOne: one turn without interference; a turn that would wait for further connection attempts or reads stops with `ended == false`. Interleavings are the business of `Pipeline.dfy`, which has the same turns when nobody else moves (`Turns.TurnRefines`).
- Liveness: that threads are scheduled and that a notified thread gets the mutex is not assumed, so nothing is said about when a command is executed; what is proved is that whoever has something to do can do it (`Runs.NobodyIsStuck`) and that the holder of a queue's mutex gives it up by its own steps (`Monitor.EveryCallEnds`).
