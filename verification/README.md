# openDSU: handoff, termination and event-loop wrappers

openDSU is preloaded into a web server and replaces it by a newer version
without losing a request.  The new version inherits the listening sockets of
the old one over an internal connection, both versions serve for a while, and
the old one terminates when its last session is closed.  This project models
the parts of the library that make this work and proves what they promise.

| file | what it models |
|---|---|
| `Termination.dfy` | the token queues and the ping chain of one version with any number of epoll workers, one system call per step |
| `Handoff.dfy` | one port handed through any number of versions: name, monitor connections, the two descriptors, readiness latch |
| `HandoffHistory.dfy` | what a state of the handoff remembers of its run: flags, the messages on each internal connection, its end |
| `HandoffAnswers.dfy` | the answers of a run on each internal connection, and who inherits |
| `HandoffProgress.dfy` | what can go on: an update to its end, an old version to its decision, and what becomes of lost messages |
| `Options.dfy` | a value that may be missing |
| `ShadowLists.dfy` | the singly linked lists of `state.c`, on the heap |
| `Core.dfy` | `socket()`, `bind()`, the transfer between the shadow lists, and the scan of the binds, on those lists |
| `Internals.dfy` | what both wrappers do with an internal connection |
| `Inherit.dfy` | both ends of an internal connection together: what a worker writes in a round, what `bind` reads |
| `Select.dfy` | the wrapper around `select()`: specification, its meaning, and the code |
| `SelectCalls.dfy` | the calls of one round of that wrapper, how often and in which order, and what it asks the kernel for |
| `Epoll.dfy` | the wrapper around `epoll_wait()`: specification, and what it means for one socket at its turn |
| `EpollBatch.dfy` | one batch over all sockets, under what the kernel guarantees of open descriptors, batches and `accept4` |
| `EpollCalls.dfy` | the calls of one batch, how often and in which order, and the interest set during the wait |
| `EpollWrapper.dfy` | whole calls and runs of calls of that wrapper, and its code on the event array and the interest set |

Three kinds of statement carry the project.  The two protocols are transition
systems, and the theorems hold in every state of every run.  The wrappers and
the lists are classes and methods, proved equal to specification functions.
Lemmas then say what these functions mean for the application.

## What the proofs found

* **Killing is safe only if everybody is active.**  `dsu_terminate` takes a
  worker token and peeks whether another one is left, in two steps before
  `killpg`.  A worker that sends its activation token after the peek is killed
  while it serves.  `Termination.KillSafeIff` shows that a decision to kill is
  safe if and only if every worker of the version has activated by then and
  none of them holds a session; `Termination.DecidesAlone` gives a run from the
  start that takes an unsafe decision.
* **A session on descriptor 0 is missed.**  `accept4` sends a token only for a
  result above 0 (`src/core.c:581`), so such a session does not keep its
  worker from terminating, and closing it takes another session's token.
  `Termination.AlwaysSafeIff` shows that decisions taken with everybody active
  are all safe if and only if no session gets descriptor 0;
  `Termination.DecidesWithSession` is the run that cuts one.
* **A session that is no AF_INET stream leaves its token behind.**  `accept4`
  announces it, but `close` takes nothing back (`src/core.c:623`), so a version
  that served a single one, over IPv6 or a UNIX socket, waits for good when its
  clients are gone (`Termination.StuckOnToken`), though it is not killed too
  early for that.  `Termination.TokensConserved` says how many tokens are left
  behind, and `Termination.TokensConservedIff` that the queue balances exactly
  if and only if neither kind of session occurs.
* **A wakeup is lost if a worker accepts before it activates.**  Such a worker's
  session token makes another one wait, and nobody pings when it is taken back.
  `Termination.NoLostWakeupIff` shows that no wakeup is lost if and only if only
  active workers accept (or there is one worker), and
  `Termination.DrainedVersionDiesIff` that a version without clients can always
  go on to its end under that condition if, and only if, all its sessions were
  AF_INET streams too; `Termination.LostWakeup` is the run that fails.
* **Port 1 cannot be updated.**  A request for a port and the ready message are
  the same 32-bit integer on the same connection, so that a request for port 1
  is read as ready and stops the old version (`Handoff.PortOneGap`).
* **A late worker can leave a port without a monitor.**  A worker that activates
  after its version decided to die may accept the connection of a still newer
  version and be killed between its two answers.  The new version then serves
  with descriptor 0 as its monitor, because `port` keeps the value of the first
  answer (`src/core.c:82-103`); `Handoff.LateWorkerGap` is such a run for any
  port above 1.  `Handoff.KillKeepsPortIff` shows that a kill keeps the port
  watched, whatever follows, if and only if it cuts no answer in half, and
  `Handoff.NoServiceGapIff` that the runs without such a kill never leave a gap
  if and only if the port is not 1.  Updates that do not overlap are always
  safe (`Handoff.ChainNoGap`).
* **Overlapping updates are taken by the wrong version.**  All versions share
  one monitor listener, so that an older worker that is not ready yet can take
  a newer version's connection: `Handoff.CurrentAcceptsIff`, with a run in
  `Handoff.OlderMayAccept`.
* **A failing `select()` leaves internal bits in the read set.**  POSIX
  (IEEE Std 1003.1-2017, System Interfaces, section 3, `select()`) has a
  failing call leave the sets alone.  `Select.FailureKeepsSetsIff` shows that
  the wrapper does so, after any number of retries, if and only if there is no
  read set, or every socket is ready and has no internal connection;
  `Select.FailureLeavesBits` is a call that does not.
* **One internal event can reach the application under epoll.**  A connection
  request that comes after the readiness of the same socket in one batch is
  not handled and not removed.  `EpollBatch.SurvivesIff` shows that this is
  the only case, `EpollBatch.LateRequestSurvives` that it is one.
* **A failed `epoll_wait()` may not report the kernel's errno.**  The wrapper
  still sends its report and takes its descriptors out of the interest set,
  and a deletion of what is not there fails.  `EpollWrapper.ErrnoSurvivesIff`
  shows when errno is the kernel's: if and only if there are bound sockets, none
  of them is ready, and every report that was owed was sent;
  `EpollWrapper.ErrnoLost` is a state in which it is not.
* `socket()` records no node for descriptor 0, and the initialiser sets
  `readyfd` twice and `markreadyfd` never (`src/state.c:17-18`);
  `Core.ProgramState.Socket` leaves that field arbitrary.

## What is assumed

* The kernel's results are parameters, with the set of descriptors open when a
  wait returns.  `select()` reports a subset of what it is asked below the
  limit.  `epoll_wait()` reports at most one event per descriptor and, where the
  lemma says so, only descriptors in the interest set.  `accept4()` returns a
  number that is not open at that time, which may be one that was closed earlier
  in the same round.  The last is one condition on the calls of a whole round
  (`Internals.FreeAccepts`); that an accepted number is none of the library's
  descriptors at each socket's turn is proved from it.
* The user data of an application's epoll event is an arbitrary token, apart
  from -1 and from the numbers of the library's own descriptors, with which the
  code compares it.
* The library's own descriptors and the public ones are open and none is the
  other, and what is in an interest set is open when a wait returns.
* The list of bound sockets is not empty when termination is decided; over an
  empty list the scan succeeds (`src/core.c:134-147`).  Token queues never
  overflow: a failed send is only logged.  Sessions are taken by `accept4`
  only, since `accept` sends no token but `close` takes one, and no other
  connected AF_INET stream socket is closed.  Workers are single-threaded, the
  set of workers is fixed, and no session is shared by fork.
* A version is killed as a whole after a decision at which all its active
  workers were ready and held no internal connection, which is what
  `Termination.DecisionDrained` gives in every run; otherwise processes do not
  crash in the middle of the handoff.  Different versions are in different
  process groups, for `killpg` ends a whole group (`src/core.c:177`), and
  SIGPIPE is ignored, so that sending ready on a connection that was cut fails
  and does not end the process.

## Model

| member | source | states |
|---|---|---|
| Termination.TokensConserved | src/core.c:577-638 | In every reachable state of N workers, as long as no session was accepted on descriptor 0: queued session tokens + accepted but unannounced sessions = open sessions + closed but untaken ones + closed sessions that were no AF_INET streams; and queued worker tokens = activations sent and not taken back |
| Termination.TokensConservedIff | src/core.c:577-638 | The session queue balances exactly, in all reachable states, if and only if every session is an AF_INET stream on a positive descriptor |
| Termination.StepConserved | src/core.c:577-638 | Every system call of every worker keeps both balances, with exactly three exceptions: closing a session that is no AF_INET stream leaves its token, closing one on descriptor 0 takes a token not sent for it, and a take may find nothing |
| Termination.TakesSucceed | src/core.c:200-224 | The non-blocking receives that take a worker token always find one, and so do those that take a session token unless a session is on descriptor 0; the peek after activation always succeeds, and no worker activates twice |
| Termination.StepInv | src/core.c:117-192 | The inductive invariant of every run: worker tokens balance, local worker facts (past detection: all binds ready, no internal connection), noticed kill, noticed wakeup |
| Termination.StepCovered | src/core.c:577-638 | Every step keeps, without a session on descriptor 0: every open session has a token queued or on the way, nobody passes detection with an open session, and the surplus grows exactly by the tokens left behind |
| Termination.StepBounded | src/core.c:577-638 | Every step keeps, when all sessions are AF_INET streams, on descriptor 0 or not: only open sessions keep tokens queued |
| Termination.KillSafety | src/core.c:162-192 | When killpg runs, every worker that was active at the decision has no session, passed detection, has all binds ready and no internal connection, whatever happened in between, if until the decision no session was accepted on descriptor 0 |
| Termination.DecisionDrained | src/core.c:117-178 | In any run at all, every active worker has passed detection with all binds ready and no internal connection when a kill is decided |
| Termination.KillSafeIff | src/core.c:162-178 | In any run at all: every killpg that can follow a decision is safe if and only if, at the decision, every worker had activated and none held a session |
| Termination.KillSafeIffAllActive | src/core.c:162-178 | Without sessions on descriptor 0, the first half decides: every killpg that can follow a decision is safe if and only if every worker had activated by the decision |
| Termination.AlwaysSafeIff | src/core.c:577-590 | All decisions taken with everybody active, in versions of any size, are safe if and only if no session can get descriptor 0, whatever families the sessions have |
| Termination.DecidesWithSession | src/core.c:577-590 | The run that fails: the only worker, active from the start, serves a session on descriptor 0 and decides to kill |
| Termination.LateActivation | src/core.c:171-178 | From any such decision with an inactive worker, a run in which that worker activates and is then killed while not past detection |
| Termination.DecidesAlone | src/core.c:162-178 | A run from the start, for any number of workers above one, to a decision to kill while another worker has not activated |
| Termination.PastForever | src/core.c:162-192 | A worker past detection stays there, with ready binds and no internal connection, and no session of it comes or goes, over any run |
| Termination.NoLostKill | src/core.c:171-178 | Once every active worker has taken its token back, one of them is between take and peek or has decided to kill |
| Termination.StepKillNoticed | src/core.c:200-224 | Every step keeps: an empty worker queue after an activation is being noticed by someone |
| Termination.NoLostWakeup | src/core.c:152-187 | If sessions are accepted by active workers only and a blocked epoll worker could terminate, a ping is queued, or another active worker runs, or another blocked worker has a latch or an internal connection to handle |
| Termination.NoLostWakeupIff | src/core.c:152-187 | That no run loses a wakeup holds if and only if no worker accepts a session before it activates, or there is one worker |
| Termination.LostWakeup | src/core.c:577-633 | The run that fails: a worker accepts and closes before it activates, and another one that could terminate sleeps for good, with no active worker able to go on |
| Termination.StepInvActive | src/event_handlers/epoll.c:138-156 | Every step keeps, under that condition: inactive workers hold no session, and a blocked worker that could terminate is noticed by an active one |
| Termination.QuietProgress | src/core.c:117-192 | A fully handed-over version without clients, whose sessions were all AF_INET streams accepted by active workers, is never stuck before it is killed: an active worker can go on without outside help |
| Termination.QuietRunBound | src/event_handlers/epoll.c:387-407 | Without outside help a fully handed-over version without clients takes at most a measured number of further steps |
| Termination.DrainedVersionEnds | src/core.c:162-192 | From every reachable state that is fully handed over and has no client, every run without outside help has a bounded number of steps |
| Termination.DrainedVersionDies | src/core.c:162-192 | And, if sessions were AF_INET streams accepted by active workers only, each such run that no active worker can continue has ended in killpg |
| Termination.RunToKill | src/core.c:162-192 | From every such state there is a run of active workers alone, without outside help, to killpg |
| Termination.DrainedVersionDiesIff | src/core.c:162-192 | That a version without clients is never stuck holds over all runs of n > 0 workers if and only if all sessions are AF_INET streams, and no worker accepts one before it activates or there is one worker |
| Termination.StuckOnToken | src/core.c:604-638 | The run that fails for any number of workers: an active worker accepts and closes a session that is no AF_INET stream, and the version waits for good without clients |
| Termination.BindHistory | src/event_handlers/epoll.c:160-247 | In every reachable state: a latch is set if and only if some worker has read a ready message for that port (a hangup sets none); a worker's bind is ready if and only if it has observed the latch; and its accepted connections are those open plus those hung up plus those that said ready |
| Termination.BindOrder | src/event_handlers/epoll.c:109-171 | After any run: a worker can accept only while it has not observed the latch, and can observe it once, after a ready message was read |
| Termination.PastNeedsReady | src/core.c:117-178 | A worker that gets past termination detection implies, for every bound port, a ready message that was read |
| Termination.SessionHistory | src/core.c:577-638 | In every reachable state, for each kind of session: accepted = open + closed; a worker is activated if and only if it has called epoll_wait, and the version killed if and only if somebody called killpg |
| Termination.BatchHandled | src/event_handlers/epoll.c:138-171 | A return of epoll_wait is over only when its ping was received and each latch it reported was observed |
| Termination.HangUpsDrain | src/event_handlers/epoll.c:194-210 | In any reachable state a worker that handles events can close all its internal connections if their clients hang up |
| Handoff.StepInv | src/core.c:70-110 | Every system call of every version and worker, late ones too, keeps the handoff invariant and undoes nothing it establishes; a kill does unless it cuts an answer in half |
| Handoff.NoServiceGapIff | src/core.c:70-110 | Over all runs of any number of versions, whoever stopped watching was replaced by a version holding the same two kernel sockets that had sent ready, and the newest version watches: if and only if the port is not 1 when no kill cuts an answer in half, and only for ports that cannot be inherited when kills may |
| Handoff.KillKeepsPortIff | src/core.c:162-178 | In every state reached without such a kill: a kill keeps the port watched in all that can follow if and only if no connection held by the killed version has its client between the two answers |
| Handoff.LateWorkerGap | src/core.c:82-103 | A run, for any port above 1, in which a worker that activated after the decision is killed between its two answers and the client serves without a monitor |
| Handoff.DecisionHoldsNothing | src/core.c:117-178 | At the decision no worker of the version holds an internal connection, so only a late one can hold what the kill cuts |
| Handoff.ChainNoGap | src/core.c:70-110 | Over any chain of updates that do not overlap there is no gap, however late workers activate |
| Handoff.PortOneGap | src/event_handlers/epoll.c:225-247 | A concrete run that leaves port 1 unwatched |
| Handoff.ReadyComesFromSuccessor | src/event_handlers/epoll.c:225-235 | A message read as ready was sent by a version that began to serve after the reader's version |
| Handoff.ReadyReachesAll | src/event_handlers/epoll.c:160-247 | Progress: once a successor has sent ready on a connection that was not cut, the version that accepted it, an earlier one, can bring all its active workers to ready, by steps of its own workers alone, if it still serves |
| Handoff.ConnectionLife | src/event_handlers/epoll.c:175-258 | For port != 1, in every state reached without a kill that cuts an answer in half (`Harmless`): each internal connection is closed by its worker at most once, when it leaves the worker's list, never while its client waits; answers come in pairs public then monitor with the same port, matching the receiver's two reads; ready only after inheriting both sockets |
| Handoff.PairedPublic | src/core.c:82-89 | The first write extends a well-paired reply queue to one that owes the monitor descriptor |
| Handoff.PairedMonitor | src/event_handlers/epoll.c:249-252 | The second write, with the same port, completes the pair |
| Handoff.OnlyCutByKill | src/core.c:82-103 | A client that waits for an answer is hung up on only because its server was killed, and then it was not given a port to serve |
| Handoff.KilledHasSuccessor | src/core.c:117-178 | A version that can be killed is not the newest one |
| Handoff.TakenIffServed | src/core.c:269-298 | The abstract name is taken exactly from the first version that serves on |
| Handoff.OnlyCurrentAccepts | src/event_handlers/epoll.c:48-64 | Over any chain of updates, each started after all live older workers are ready, a connection is accepted only by a worker of the newest serving version, and its client does not serve yet |
| Handoff.CurrentAcceptsIff | src/event_handlers/epoll.c:109-133 | For overlapping updates: a pending connection can only reach the newest version if and only if every active worker of an older one is ready |
| Handoff.OlderMayAccept | src/event_handlers/epoll.c:109-133 | A run in which a third version's pending connection can be accepted by a worker of the first |
| HandoffHistory.RunRemembers | src/core.c:117-178 | In every reachable state, for any port and whatever kills have cut: a worker is ready if and only if it observed the latch, and active if and only if it activated; a version has sent ready, is doomed, or is gone if and only if it did, decided, or suffered that; a connection belongs to the worker that accepted it |
| HandoffHistory.FirstInFirstOut | src/core.c:70-110 | In every such state: what waits to be read on an internal connection is exactly the port, once sent, and then ready, once sent, without as many messages as its worker has read |
| HandoffHistory.ClosedFor | src/event_handlers/epoll.c:194-247 | A worker has a connection in its list from accept4 until it closes it or is killed, and closes it if and only if it has read ready, upon which the latch of its version is set, or the client has hung up |
| HandoffHistory.LatchedIff | src/event_handlers/epoll.c:225-235 | The latch of a version is set if and only if one of its workers has taken a ready message |
| HandoffHistory.OwedIff | src/event_handlers/epoll.c:89-99 | A version owes ready if and only if it serves sockets it inherited, and it has neither sent ready nor failed to send it; nothing else sends it |
| HandoffHistory.HungUpIff | src/core.c:162-178 | The client's end of an internal connection is open until the client reports ready or is gone; the worker's end is cut if and only if its version was killed before it closed the connection |
| HandoffHistory.GoneIff | src/core.c:162-178 | A version that has served goes only by being killed, and one that has not goes by itself, after it failed to inherit over a connection |
| HandoffHistory.RunMonitored | src/event_handlers/epoll.c:109-133 | Over any run, whatever kills have cut: a worker holds only connections made to its own version's monitor listener, so a version without one serves nobody |
| HandoffAnswers.AnswersInOrder | src/event_handlers/epoll.c:183-252 | What waits for a client is, for each request or failed read in turn, the first version's public and then its monitor descriptor, both with the port or both with -1, without what the client took and what its worker still owes |
| HandoffAnswers.ServesIff | src/core.c:70-110 | After any run: a version has begun to serve if and only if it took the name, or it took both messages of its first answer, which was to a request and for a positive port, and dup2 succeeded |
| HandoffProgress.UpdateCompletes | src/core.c:70-110 | Progress: in every reachable state in which some version has served, a version just launched can come to the end of `bind` by the given steps of its own and of one worker of the newest version, whatever all others are doing: it connects, asks, is accepted, read and answered, and then serves that version's two kernel sockets and owes ready if the port is positive, and does not serve otherwise |
| HandoffProgress.OldVersionRetires | src/core.c:117-192 | Progress: once the latch of a serving version is set and every client on a connection that its workers hold has hung up or failed to inherit, its workers can close these connections, observe the latch, and decide to kill the version; no other version has to do anything, but that those which failed exit |
| HandoffProgress.FailedReadFails | src/event_handlers/epoll.c:183-252 | A read that fails is answered with -1, upon which the client goes on without inheriting |
| HandoffProgress.CutMovesOn | src/core.c:78-110 | A version whose connection is cut while it binds never waits: by at most two steps of its own it serves, if both messages of an answer with a positive port were sent before, and goes on without inheriting if not |
| HandoffProgress.LostForGood | src/event_handlers/epoll.c:89-99 | Sending ready may fail exactly when it is owed, and is then never tried again in any continuation |
| ShadowLists.List.Append | src/state.c:27-43 | Appends one node at the end, all others kept, list still acyclic with distinct nodes |
| ShadowLists.List.Locate | src/state.c:72-80 | Finds the first node with the key and the link before it, or null |
| ShadowLists.List.Unlink | src/state.c:54-59 | Redirecting one link removes exactly that node and frees it; the nodes of the list are never freed ones |
| ShadowLists.List.RemoveFirst | src/state.c:46-62 | Removes and frees exactly the first node with the key, and nothing if there is none; the order of the others is kept |
| ShadowLists.List.Store | src/core.c:503-504 | Assigning a field of a node changes that element only |
| Core.ProgramState.Socket | src/core.c:459-478 | For a positive descriptor, a fresh node at the end of sockets: not ready, without connections, port 0, listener, latch and owed connection -1; nothing otherwise |
| Core.ProgramState.Transfer | src/state.c:65-69 | The node's contents go to the end of binds, the first node for its descriptor leaves sockets, both lists stay acyclic and disjoint |
| Core.ProgramState.Bind | src/core.c:481-549 | Whatever the outcome, the first node for the descriptor moves to the end of binds, with its descriptor, connections and readiness, and the given port and latch: if a positive port came back and dup2 succeeded, its listener is the one received, it owes ready on its own connection, and the result is 0; otherwise its listener is its own socket, it owes nothing new, and the result is that of the public bind; the combined multiset of both lists is conserved; without such a node nothing changes and -1 is returned |
| Core.RecordKeepsIndex | src/core.c:489-545 | Even if stale nodes repeat a descriptor, the node that was found, recorded in and removed is the same first one |
| Core.CutConserves | src/state.c:65-69 | Moving an element from one list to the end of the other keeps the combined multiset |
| Core.ProgramState.TerminationDetection | src/core.c:117-149 | True if and only if no session token is queued and every bind on the linked list is ready with an empty list of internal connections |
| Internals.AnswerOn | src/event_handlers/select.c:108-165 | One read of a connection concerns that connection only: its read and its reply, never another's |
| Inherit.SelectHandsOver | src/core.c:78-103 | Round trip: after a round of the select wrapper over all sockets the client's two reads give the public and monitor descriptors of its socket and its port, in this order, and bind inherits if and only if the message was a request, the port is positive and dup2 succeeds |
| Inherit.EpollHandsOver | src/event_handlers/epoll.c:183-252 | The same round trip for a batch of the epoll wrapper |
| Inherit.SelectClosesEnded | src/event_handlers/select.c:116-157 | In a round over all sockets a connection is closed exactly once if it has traffic that ends it, and never otherwise, also when its number is accepted again |
| Inherit.EpollClosesEnded | src/event_handlers/epoll.c:194-247 | The same for a batch of the epoll wrapper |
| SelectCalls.RoundAnswers | src/event_handlers/select.c:97-173 | Each connection with traffic is answered in a round by exactly these calls, one directly after the other: read and close on a hangup; read, mark the latch of its own socket, and close on ready; read, public and monitor descriptor with the port, or -1 on an error; read only if there was nothing |
| SelectCalls.RoundMarks | src/event_handlers/select.c:140-157 | A latch m is marked in a round if and only if a connection with traffic of a socket whose markreadyfd is m reads 1, and as often as there are such connections |
| SelectCalls.RoundAccepts | src/event_handlers/select.c:65-91 | A round accepts once on each listener that was reported, on no other, and receives no ping |
| SelectCalls.RoundInOrder | src/event_handlers/select.c:222-238 | Ready is sent on a connection before it is closed, and it is closed directly afterwards if the send did not fail |
| SelectCalls.AskedExactly | src/event_handlers/select.c:28-62 | A descriptor is in the read set asked for if and only if the application put it there, or it is a connection of a bound socket, or the listener or latch of one that is not ready; the other sets are kept; and the bound is above all of these and raised no further |
| SelectCalls.ReturnReadies | src/event_handlers/select.c:202-212 | After a return exactly those sockets are ready that were before, and those whose latch was readable |
| SelectCalls.EveryRoundOk | src/event_handlers/select.c:250-357 | What these statements ask of a round holds in every round of every run of calls, retries included |
| Select.WalkConns | src/event_handlers/select.c:94-173 | The loop over the linked list, which frees nodes as it goes, leaves exactly the list, bits, count and calls of the specification; every node is read by ShadowLists.List.Value and Next, which require that it was not freed |
| Select.Visit | src/event_handlers/select.c:97-173 | One iteration: next is read before the node is freed, and the node freed by descriptor is the one being visited |
| Select.RoundConnections | src/event_handlers/select.c:73-173 | For all sockets of a round, from what is open when it begins: each list keeps its order, loses exactly the ended connections and gets the accepted one at its end; a connection with traffic is read once and answered public then monitor, or closed once; nothing else is touched, so an accepted connection is not read even if its number was just closed |
| Select.RoundSound | src/event_handlers/select.c:73-173 | A round keeps the listeners, latches and connections of all sockets different |
| Select.EveryRound | src/event_handlers/select.c:250-357 | The same in every round of every run of calls, retried returns included: all internal descriptors are different before and after, and the connections are served and listed as above |
| Select.ReportIff | src/event_handlers/select.c:222-238 | One socket's second pass: ready is sent exactly if the pass leaves the public descriptor in the read set and something is owed, the connection is closed if that was sent, and nothing is owed afterwards |
| Select.ReportedFirst | src/event_handlers/select.c:222-238 | Over all sockets and any run of calls, ready is sent on the connection a socket was inherited over exactly once: in the first round that leaves its public descriptor in the read set |
| Select.RoundMeaning | src/event_handlers/select.c:206-220 | For any report of the kernel, the bits left are those reported minus all internal descriptors and the public descriptors of the sockets that are ready by then |
| Select.RoundInternal | src/event_handlers/select.c:73-91 | A round brings in no internal descriptor but the connections it accepts |
| Select.RoundCount | src/event_handlers/select.c:73-106 | In both passes, over all sockets and connections, every increment of the correction matches exactly one bit cleared |
| Select.RoundSocks | src/event_handlers/select.c:202-247 | A round changes a socket only in its connections, the ready message it owes, and readiness, which is never taken back |
| Select.CountConserved | src/event_handlers/select.c:327-356 | The corrected result equals the number of bits left in the three sets, for any kernel report |
| Select.ReturnRefines | src/event_handlers/select.c:304-328 | One return gives the kernel's answer to the application's own sets, without the public descriptors of ready sockets |
| Select.SelectRefines | src/event_handlers/select.c:250-357 | A successful call, after any number of retries, returns the kernel's last answer to the original sets minus retired public descriptors in the read set and exactly in the others |
| Select.ResultCounts | src/event_handlers/select.c:327-356 | The result of a successful call, after any retries, is the number of bits in its three sets, and not 0 when there is no timeout |
| Select.FailureKeepsSetsIff | src/event_handlers/select.c:304-308 | A call that fails, after any number of retries, leaves the application's sets unchanged if and only if nothing internal was added at the last one |
| Select.FailureLeavesBits | src/event_handlers/select.c:304-308 | A failing call that leaves the listener and the latch in the read set |
| Select.NothingWatchedIff | src/event_handlers/select.c:37-60 | The wrapper adds nothing if and only if every socket is ready and has no internal connection |
| Select.ReadyForGood | src/event_handlers/select.c:206-220 | Over any run of calls, a socket ready at a return stays ready, and its public descriptor is in the read set of neither that nor any later successful call |
| Select.Wrapper.ServeConn | src/event_handlers/select.c:97-173 | One iteration on the correction counter and the read set equals one step of the specification |
| Select.Wrapper.ServeConns | src/event_handlers/select.c:94-173 | The whole walk equals the specification |
| Select.Wrapper.HandleConn | src/event_handlers/select.c:65-175 | Request, accept, clear and walk equal the specification; correction grows by the bits cleared |
| Select.Wrapper.PostSelect | src/event_handlers/select.c:202-247 | Latch, retired public descriptor and report of a new version equal the specification |
| Select.Wrapper.HandleConns | src/event_handlers/select.c:319-320 | The first pass over all bound sockets equals the specification |
| Select.Wrapper.PostSelects | src/event_handlers/select.c:323-324 | The second pass over all bound sockets equals the specification |
| Select.Wrapper.SniffConn | src/event_handlers/select.c:28-62 | Adds exactly the watched descriptors of a socket and raises max_fds over them |
| Select.Wrapper.SniffConns | src/event_handlers/select.c:291-292 | The same for all bound sockets |
| Select.Wrapper.Correct | src/event_handlers/select.c:319-329 | Both passes and the corrected count; correction is 0 again between calls |
| Select.Wrapper.Select | src/event_handlers/select.c:250-357 | The call with its retries from the saved originals equals the specification, for every behaviour of the kernel |
| Epoll.EventsMeaning | src/event_handlers/epoll.c:97-264 | Exactly which events of a batch one socket overwrites, judged by the state before the batch |
| EpollBatch.Transparency | src/event_handlers/epoll.c:345-370 | The application gets the kernel's batch, in order, minus exactly the events that a socket handles |
| EpollBatch.SurvivesIff | src/event_handlers/epoll.c:109-171 | An event of a descriptor in the interest set is in the array returned if and only if it is the application's own, or a connection request that came after the readiness of its socket in the same batch |
| EpollBatch.LateRequestSurvives | src/event_handlers/epoll.c:109-171 | A batch in which such a request reaches the application |
| EpollBatch.BatchConnections | src/event_handlers/epoll.c:175-258 | For all sockets of a batch, from what is open when it begins: each list keeps its order, loses exactly the ended connections and gets the accepted one at its end; a connection with an event is read once and answered public then monitor, or closed once; nothing else is touched |
| Epoll.ReportedAtOnce | src/event_handlers/epoll.c:89-99 | Ready is sent by the first return, even a failing one, on exactly the connections that sockets were inherited over, and no socket owes it afterwards |
| EpollBatch.ProperAfter | src/event_handlers/epoll.c:84-265 | Handling a batch keeps all listeners, latches, connections and the wakeup descriptor of all sockets different |
| EpollBatch.AllTurns | src/event_handlers/epoll.c:352-353 | From open descriptors, a genuine batch and accept4 returning numbers that are not open: at every socket's turn a new connection is fresh for it and for all other sockets |
| Epoll.PreparedSet | src/event_handlers/epoll.c:35-81 | During the wait the interest set is the application's without retired public descriptors, even if put back, plus the internal ones |
| Epoll.EventsInterest | src/event_handlers/epoll.c:160-247 | What a batch takes out of the interest set: exactly the latch that announced and the connections that ended |
| EpollBatch.InterestAfterWait | src/event_handlers/epoll.c:306-358 | After one wait: the application's descriptors but the public ones of sockets ready at entry, and exactly the latches of sockets still not ready, for any mix of requests, closes and readiness |
| EpollCalls.BatchAnswers | src/event_handlers/epoll.c:175-262 | Each connection with an event is answered in a batch by exactly the calls that its read asks for, one directly after the other: on ready, read, mark the latch of its own socket, close |
| EpollCalls.BatchMarks | src/event_handlers/epoll.c:225-247 | A latch m is marked in a batch if and only if a connection with an event of a socket whose markreadyfd is m reads 1, and as often as there are such connections |
| EpollCalls.BatchAccepts | src/event_handlers/epoll.c:109-156 | A batch accepts once on each listener whose request comes before its socket is ready, on no other, and receives the ping once if and only if there is an event for it |
| EpollCalls.BatchInOrder | src/event_handlers/epoll.c:89-99 | Ready is sent on a connection before it is closed, and it is closed directly afterwards if the send did not fail |
| EpollCalls.PreparedExactly | src/event_handlers/epoll.c:35-81 | A descriptor is in the interest set during a wait if and only if it is the application's and not the public one of a ready socket, or the wakeup descriptor, or a connection, or the listener or latch of a socket that is not ready |
| EpollCalls.PreparedFromAny | src/event_handlers/epoll.c:35-81 | Whatever the interest set held before: preparing it takes out exactly the listener, the latch and the public descriptor of each ready socket, and puts in exactly the wakeup descriptor, the connections, and the listeners and latches of the others |
| EpollCalls.BatchReadies | src/event_handlers/epoll.c:160-171 | After a batch exactly those sockets are ready that were before, and those whose latch has an event |
| EpollWrapper.EpollRefines | src/event_handlers/epoll.c:373-410 | A call returns the kernel's last batch without the handled events and their number, not 0 without a timeout, -1 on failure; the batches before it held no event of the application |
| EpollWrapper.InterestAfterCall | src/event_handlers/epoll.c:373-410 | After a whole call with its retries the interest set holds exactly the application's descriptors but the public ones of sockets ready at the last wait, and the latches of sockets still not ready; the library's descriptors are all different again and none of the application's, so the next call begins as this one did |
| EpollWrapper.RunRefines | src/event_handlers/epoll.c:373-410 | Over any run of calls, with the application adding and removing descriptors of its own in between, every call returns what `EpollRefines` says and leaves what `InterestAfterCall` says; only the state at the start is assumed of the library |
| EpollWrapper.EveryBatch | src/event_handlers/epoll.c:175-258 | In every batch of every call of such a run, skipped ones included, each connection with an event is read once and answered in full or closed once, no other is touched, and the lists are kept accordingly |
| EpollWrapper.ReadyForGood | src/event_handlers/epoll.c:60-64 | Over any run of calls, a ready socket stays ready and no later call reports an event of its public descriptor, whatever token the application stored with it, even if it adds the descriptor again in between |
| EpollWrapper.ErrnoSurvivesIff | src/event_handlers/epoll.c:345-370 | After a failed wait errno is the kernel's if and only if there are bound sockets, none is ready, and every owed report was sent |
| EpollWrapper.ErrnoLost | src/event_handlers/epoll.c:306-310 | One ready socket: deleting its listener, which is not in the interest set, replaces the kernel's errno |
| EpollWrapper.ShiftLeft | src/event_handlers/epoll.c:288-291 | The inner loop removes exactly one entry in place |
| EpollWrapper.CorrectEvents | src/event_handlers/epoll.c:279-303 | In-place compaction: the prefix is the events not overwritten, in order, the result their number; a negative count is returned as it is; it terminates although the index steps back |
| EpollWrapper.WithoutAt | src/state.c:120-140 | Removal by descriptor as the wrapper specifies it is removal of the first such node of the linked list |
| EpollWrapper.Wrapper.InternalConn | src/event_handlers/epoll.c:35-81 | The additions and deletions for one socket, in their order |
| EpollWrapper.Wrapper.PreEpoll | src/event_handlers/epoll.c:269-276 | The interest set prepared for all bound sockets |
| EpollWrapper.Wrapper.Respond | src/event_handlers/epoll.c:175-262 | The search over the connections and the answer; only the event's own entry and connection change |
| EpollWrapper.Wrapper.HandleEvent | src/event_handlers/epoll.c:100-262 | One event equals the specification; all other entries of the array are kept |
| EpollWrapper.Wrapper.HandleConn | src/event_handlers/epoll.c:84-265 | One socket's pass over the array equals the specification |
| EpollWrapper.Wrapper.HandleConns | src/event_handlers/epoll.c:352-353 | All bound sockets' passes over the shared array equal the specification |
| EpollWrapper.Wrapper.RemoveInternal | src/event_handlers/epoll.c:306-317 | Takes the listener and the connections of a socket out of the interest set |
| EpollWrapper.Wrapper.RemoveInternals | src/event_handlers/epoll.c:356-358 | The same for all bound sockets |
| EpollWrapper.Wrapper.PostEpoll | src/event_handlers/epoll.c:345-370 | Handling, cleaning up and compaction equal the specification; a failed wait still reports ready |
| EpollWrapper.Wrapper.EpollWait | src/event_handlers/epoll.c:373-410 | The call with its retries equals the specification, for every behaviour of the kernel |

## Left out

- The kernel: `select`, `epoll_wait`, `recv`, `send` and `accept4` are arbitrary results within the guarantees listed above; a call's kernel returns are a finite sequence, and a call without a result still waits.
- `src/communication.c`: a descriptor and a port travel as one message; message layout and byte order would add only easy members, and a failing `dsu_write_fd` is not modelled.
- Select.Wrapper.Select: holds the bound sockets as a sequence of values; the linked list under the walk is modelled in `Select.WalkConns`, aliasing between the lists of different sockets is not. Activation and termination detection at the head of the call are modelled in `Termination.dfy`.
- EpollWrapper.Wrapper.EpollWait: the same two limits, one epoll instance, and errno, which `EpollWrapper.ErrnoSurvivesIff` treats apart.
- Termination.NoLostWakeup: epoll workers only, because `select` never watches the wakeup descriptor.
- Termination.DrainedVersionDies: epoll workers only, for the same reason.
- Handoff.NoServiceGapIff: one port; ports do not interact, each has its own name, monitor listener and latch. Several workers of a new version that each send ready are one report.
- Core.ProgramState.Bind: errno is not modelled; a monitor that cannot be set up for another reason than a taken name is one outcome; the failure of `socketpair` exits the process and is not modelled.
- Threads that share one process's state, and late forks that duplicate accepted connections or sessions.
- `accept()` and the `fds` session lists: they are appended to and never read or removed from.
- `dsu_sockets_search_port` and `dsu_socket_search_fds`: not called.
- `pselect` (a stub), `signal`, `sigaction`, the DEBUG wrappers, symbol lookup, logging, `src/utils.c` and `src/exec.c`.
