# our-smtp-proxy, modelled and verified in Dafny

our-smtp-proxy keeps SMTP connections open. PHP programs hand it mails over local sockets; it queues them on a
pool of connections per transport, keeps idle connections alive with NOOP, limits how often a connection is
used, and reports back whether the server took the mail. This project models that behaviour and proves what the
program is relied on for.

## What is modelled

**The pool** (`src/transport.c` over `src/dllist.c`). `System.dfy` is a transition system: any number of calls of
`tpSendMail`, one keep-alive thread per connection, the daily timer, and the main thread in `abortTpConns`. Each
thread has a program counter. A critical section is one step, an SMTP exchange is one step with a free outcome,
and broadcasts on `idleCond` and signals are steps of their own after the unlock. `Invariant.dfy` and `Steps.dfy`
prove an inductive invariant, `Theorems.dfy` draws the conclusions: partition of the connections into the three
lists, capacity, single ownership of sockets and unlocked counters, no lost wakeup, the order of commands over
the life of a connection, usage limits, conservation of the counters, and the queue discipline. `Shutdown.dfy`
follows the second loop of `abortTpConns`, `Abort.dfy` its first and says exactly when the whole comes back.
`Stranding.dfy` gives a run for each loop in which it does not: the last waiting call may leave without waking the
main thread, and `setEndFlag` does not signal a keep-alive thread that is parked on an idle connection because
somebody was waiting.

Below that, `DList.dfy` is the intrusive list with heap nodes, `Transport.dfy` the `tp_t` with its three lists and
the connections, and `Sections.dfy` shows that the critical sections of the main paths, carried out on linked lists,
are atomic steps of the transition system; `Simulation.dfy` adds the rest and shows, for every step from every state
of which the invariant holds, that what the code needs is there. `Pool.dfy` is the value that both sides talk about.
`Clients.dfy` is the bounded list of clients (`src/pthread_dllist.c`), as a transition system and on the heap.

**The dialogue** (`src/smtp.c`). `Session.dfy` holds two automata: the discipline that the proxy keeps, and what
RFC 5321 (sections 3.3, 4.1.1 and 4.1.4), RFC 3207 (section 4) and RFC 4954 (section 4) ask for, the order of the
commands and QUIT before the closing. The discipline keeps the order; `Closing.dfy` says when the rule about QUIT is
broken.
`Base64.dfy` is the encoder, `Replies.dfy` the reading of replies, `Dialogue.dfy` the commands, on a connection
whose exchanges all have a free fate, `Verdict.dfy` what the reply means for the client, and `Speaking.dfy` ties
the dialogue to the transition system and to the discipline.

**The wire format** (`php-scripts/Transport.php`, `src/client.c`, `src/rcpt.c`). `Printer.dfy` is the PHP side with
its normalisation and stuffing, `Framer.dfy` the growing buffer, `Parser.dfy` the parser that cuts the message up
in place, `Recipients.dfy` the recipient list. `Wire.dfy` and `EndToEnd.dfy` prove when all of it together is the
identity, and `Service.dfy` goes from the PHP client through the parser, the configuration and the dialogue back
to the reply.

**The configuration** (`src/ini.c`, `tpIniHandler`). `Ini.dfy` is the parser, `IniText.dfy` the round trip of a plain
file, `IniLines.dfy` every kind of line with the error that is reported, `Settings.dfy` the transports that come out.

`Sequences.dfy`, `Lines.dfy` and `CStrings.dfy` hold what the others share.

## What turned out not to hold, and exactly when it does

- `abortTpConns` may wait for ever, in either loop. In the first (src/transport.c:442-444) the sleeping main thread
  loses its wakeup exactly when the last waiting call times out, or has room but cannot connect, while nothing is busy
  and no thread is left that would broadcast (`Abort.LosesExactly`, with a run in `Stranding.SleepsOn`). In the second
  an idle connection may have a keep-alive thread parked with no signal to come (`Stranding.Strands`). Run to rest, it
  comes back if and only if neither happened (`Abort.ComesBackExactly`).
- In the bounded list a free place may have nobody coming for it while a thread sleeps: exactly when a signalled
  thread leaves without taking a place, by timing out or because the callback says no, while another one sleeps and
  there are no more threads coming than places free (`Clients.ShortExactly`, with a run in `Clients.SleepsOn`). The
  proxy appends from its accept loop only (src/main.c:182), one thread at a time, so this does not befall it
  (`Clients.WasteTakesTwo`).
- RFC 5321 (sections 4.1.1.10 and 4.1.4) wants QUIT to be the last command and the connection not to be closed before
  it. The pool never says QUIT; the rule is broken for a connection exactly when its keep-alive thread has closed the
  socket (`Closing.QuitRule`, with a run of friendly replies only in `Closing.ClosesWithoutQuit`). The trial of a
  transport does say QUIT (`Speaking.TestKeepsTheRules`). `newConn` closes without QUIT, too, when the setup fails
  (`Speaking.FailedSetupIsUnquit`); such a connection is never published and has no trace in the transition system.
- The first line of a body and the lines of a header are not stuffed. A mail arrives as written if and only if none
  of them starts with a dot, there is a recipient and every address is one line, no recipient is `DATA`, none is `.`,
  and there is no NUL in the addresses or in what trimming leaves of header and body (`EndToEnd.ArrivesAsWritten`).
  A recipient `.` that comes first after an empty sender is let through, since the loop wants more than five bytes.
- The reply to a failed mail may start with 250, which the PHP client takes for success: if and only if the server
  says 250 where the proxy awaits another code (`Verdict.ReplyTells`, with a script in `Verdict.PrefixTestMayFail`).
- A RCPT command loses its line end for addresses of more than 1011 characters (`Speaking.CommandIsALine`).
- A comment behind an empty value is not seen, it becomes the value (`IniLines.NoteBehindNothing`).
- A NUL inside the mail cuts it there: the server is sent its beginning, without the final dot (`Wire.DataCutAtNul`,
  `EndToEnd.InnerNulIsCut`). A NUL that fills the buffer, at a multiple of 8192 bytes before the end, drops the client:
  the next read has length zero (`Framer.ReadMessage`, `Framer.ChunkingDoesNotMatter`).

The comment in `src/transport.c:460-464` says that after `abortClients` all connections are idle or with their
keep-alive threads. The model follows the code: `MainLock` waits for busy and waiting to be zero, and calls that
stand between the `blocked` test and the mutex are assumed to be gone when the main thread starts.

## Reading the proofs

`maxConn >= 1` is what `checkTp` demands before a transport is used. `IsRun(cfg, run)` says that a sequence of
steps is possible from the empty transport, `Final(cfg, run)` is the state it leads to; statements about every run
quantify over both. History variables record who holds a connection, what was said on it, and the total at the last
reset; no guard looks at them. `Stranding.Strands` shows that the hypotheses of the shutdown theorems can be met: its
last state is one in which the main thread waits and nothing more happens. `hide` statements keep definitions out of
proofs that do not need them.

## Model

| member | source | states |
|---|---|---|
| DList.DList.AppendNode | src/dllist.c:10-23 | appends to the sequence that the links spell out, keeps prev and next mirrored, head, tail and count exact, touches no data |
| DList.DList.DeleteNode | src/dllist.c:25-46 | takes out exactly the node given, wherever it stands, and clears its links |
| DList.MvNode | src/dllist.c:48-52 | a node leaves one list and becomes the last of another that is disjoint from it; both stay well linked |
| DList.DList.Visit | src/dllist.c:81-98 | calls the handler with index, element and argument from the head on until it answers with zero; comes back with the node it stopped at, none if it did not, and with what the handler made of the argument |
| DList.WalkFindsFirst | src/dllist.c:86-97 | for a handler that only tests, the visit stops at the first element that fails the test |
| Sequences.WithoutFacts | src/dllist.c:25-46 | deleting from a list without duplicates removes that element and nothing else |
| Pool.TakeIdleMoves | src/transport.c:322-328 | taking the head of the idle list moves exactly that connection to busy, status included, and changes no other |
| Pool.PublishAdds | src/transport.c:302-306 | a new connection joins the busy list, no other list or connection changes |
| Pool.ReleaseMoves | src/transport.c:403-408 | giving back moves exactly this connection from busy to idle |
| Pool.RetireMoves | src/transport.c:417-425 | ending moves exactly this connection from busy to the NOOP list |
| Pool.GrabMoves | src/transport.c:248-251 | the keep-alive thread moves exactly its own connection from idle to the NOOP list |
| Pool.GiveBackMoves | src/transport.c:270-272 | the keep-alive thread moves exactly its own connection from the NOOP list back to idle |
| Pool.UnlinkRemoves | src/transport.c:218 | ending takes exactly this connection off the NOOP list |
| Pool.FlagKeeps | src/transport.c:446-451 | every connection on the NOOP and idle lists is told to end, busy ones are left alone, and the lists stay as they are and sound |
| Transport.Tp.FirstIdle | src/transport.c:322-324 | on the heap: the head of the idle list is the connection that the value of the pool names first |
| Transport.Tp.TakeIdle | src/transport.c:322-328 | on linked nodes: returns the head of the idle list, and lists, status and counts become those of `Pool.TakeIdle`, nothing else |
| Transport.Tp.Publish | src/transport.c:302-306 | on linked nodes, with the connection allocated: lists and fields become those of `Pool.Publish`, and the new connection is the one returned |
| Transport.Tp.Wait | src/transport.c:340 | on linked nodes: only the count of waiting calls changes |
| Transport.Tp.Release | src/transport.c:403-408 | on linked nodes: lists, status and both send counters become those of `Pool.Release`, nothing else |
| Transport.Tp.Retire | src/transport.c:417-425 | on linked nodes: lists, status, end flag and counters become those of `Pool.Retire`; the counters grow only for a delivered mail |
| Transport.Tp.Grab | src/transport.c:248-251 | on linked nodes: lists and status become those of `Pool.Grab`, nothing else |
| Transport.Tp.GiveBack | src/transport.c:270-272 | on linked nodes: lists and status become those of `Pool.GiveBack`, nothing else |
| Transport.Tp.Unlink | src/transport.c:218 | on linked nodes: exactly this connection leaves the NOOP list, as in `Pool.Unlink` |
| Transport.Tp.FlagList | src/transport.c:447 | the visit sets the end flag of every connection on the list and of no other |
| Transport.Tp.Flag | src/transport.c:446-451 | on linked nodes: end flags become those of `Pool.Flag`, lists and counters stay |
| Sections.LockSection | src/transport.c:320-366 | the critical section of `getAnIdleConn` up to a wait or an unlock, on linked lists, does what the atomic step of the interleaving model does, on every branch; it waits if and only if the idle list is empty and the other two hold `maxConn` connections |
| Sections.LeaveSection | src/transport.c:352-366 | what follows the wait loop of `getAnIdleConn`, on linked lists, does what the interleaving model's step does there |
| Sections.ResumeSection | src/transport.c:343-366 | a call that wakes with the mutex and tests again, on linked lists, does what the interleaving model's step does; it sleeps on if and only if the idle list is empty and the other two hold `maxConn` connections |
| Sections.NoopLockSection | src/transport.c:244-256 | the keep-alive thread at the top of its loop, ending included, on linked lists, does what the interleaving model's step does; when it parks, ends and goes on is said on the fields of the connection |
| Sections.NoopReturnSection | src/transport.c:265-272 | the keep-alive thread after a NOOP, on linked lists, does what the interleaving model's step does, and ends if and only if it was told to |
| Sections.MainLockSection | src/transport.c:440-454 | `abortTpConns` with the mutex, on linked lists, does what the interleaving model's step does, and waits if and only if a connection is busy or somebody waits |
| Simulation.UnholdSection | src/transport.c:402-427 | giving back or retiring a connection, on linked lists, does what the interleaving model's step does, in every state of which the invariant holds |
| Simulation.UnlinkSection | src/transport.c:215-219 | taking a closed connection off the NOOP list, on linked lists, does what the interleaving model's step does, in every state of which the invariant holds |
| Simulation.CountSection | src/transport.c:259 | the changes of `noopCount` and `sendCount` outside the mutex (also at src/transport.c:378 and 394), in memory, do what the interleaving model's steps do, in every state of which the invariant holds |
| Simulation.LiveAt | src/transport.c:204-428 | where the invariant holds, a connection that is not freed has a node on the list that its status names |
| Simulation.Step | src/transport.c:204-535 | every step of the interleaving model, carried out on linked lists from a state of which the invariant holds: its preconditions are met, memory stands for the next pool, and the invariant holds again |
| Invariant.Initially | src/transport.c:23-44 | a new transport satisfies the invariant |
| Invariant.LockKeeps | src/transport.c:320-366 | taking, creating or failing to create a connection, or falling asleep, keeps the lists sound, ownership one to one, and what is known of every connection |
| Invariant.ResumeKeeps | src/transport.c:343-366 | waking, testing again, and then taking, creating or sleeping keeps the lists sound, ownership one to one, and what is known of every connection |
| Invariant.UnholdKeeps | src/transport.c:402-427 | giving a connection back or retiring it keeps the lists sound, ownership one to one, and what is known of every connection |
| Steps.BroadcastKeeps | src/transport.c:409 | after a broadcast nobody sleeps unsignalled, and lists, ownership, connections, counters, signals and the main thread are as the invariant has them |
| Steps.NoopLockCore | src/transport.c:244-256 | the keep-alive thread at the top of its loop keeps the lists sound, ownership one to one, and what is known of every connection |
| Steps.NoopReturnCore | src/transport.c:265-272 | the keep-alive thread after its exchange keeps the lists sound, ownership one to one, and what is known of every connection |
| Steps.MainLockKeeps | src/transport.c:440-455 | `abortTpConns`, waiting or telling all connections to end, keeps the invariant |
| Steps.StepKeeps | src/transport.c:204-458 | every enabled step of every thread is safe to take and keeps the invariant |
| Steps.RunKeeps | src/transport.c:204-458 | the invariant holds in every reachable state, for any number of calls and connections |
| Theorems.NeverUnsafe | src/transport.c:204-458 | in every reachable state each enabled step follows only pointers to live connections and moves or deletes a node on the list that holds it |
| Theorems.Capacity | src/transport.c:322-366 | busy, idle and NOOP connections together never exceed `maxConn`, although the wait loop tests for equality |
| Theorems.Partition | src/transport.c:235-428 | a connection that is not freed is on exactly one list, once, and its status names that list |
| Theorems.Exclusive | src/transport.c:243-276 | no two threads use the socket or the unlocked counters of one connection; a client does so only while it is busy, the keep-alive thread never while it is busy |
| Theorems.OwnersAreBusyConns | src/transport.c:314-428 | busy connections and the calls that hold one are in bijection |
| Theorems.NoLostWakeup | src/transport.c:340-352 | a client that sleeps unsignalled finds nothing idle and `maxConn` connections busy or in a NOOP, or a broadcast that wakes it is enabled |
| Theorems.BroadcastWakes | src/transport.c:232 | a broadcast leaves no sleeper unsignalled, and the thread that signals `endCond` goes on to broadcast |
| Theorems.LockSleepsExactly | src/transport.c:321-366 | a call that comes waits if and only if nothing is idle and there are `maxConn` connections; otherwise it takes the one idle longest, connects, or leaves |
| Theorems.ResumeSleepsExactly | src/transport.c:343-366 | a woken call sleeps on if and only if nothing is idle and there are `maxConn` connections, and then changes nothing; otherwise it takes the one idle longest, connects, or leaves |
| Theorems.ParksExactly | src/transport.c:244-256 | a keep-alive thread parks if and only if its connection is busy, or idle while somebody waits; otherwise it ends the connection if told to and goes on to a NOOP if not |
| Theorems.ClosesExactly | src/transport.c:259-263 | after a NOOP it closes if and only if the exchange failed or the row of NOOPs at the end of what was said has reached the limit |
| Theorems.ReturnsExactly | src/transport.c:265-273 | back with the mutex it ends the connection if and only if it was told to meanwhile; otherwise the connection is the last idle one |
| Theorems.SaidInOrder | src/transport.c:378-427 | what is said on a connection, over its whole life and by all threads, keeps the discipline and breaks no rule of RFC 5321 about the order of commands; the rule about QUIT is another matter, see `Closing.QuitRule` |
| Theorems.SaidByTheRules | src/transport.c:378-427 | position by position: MAIL first or right after an accepted RSET, DATA only after MAIL and at least one RCPT, all accepted, NOOP only between mails, nothing but the closing after a failure |
| Theorems.SendLimit | src/transport.c:394-398 | with `maxSendPerConn` at least 1 no connection delivers more mails, and an idle one has room for another |
| Theorems.NoopLimit | src/transport.c:259-262 | with `maxNoop` at least 1 there are never more NOOPs in a row, and an idle connection has one left |
| Theorems.Conservation | src/transport.c:394-427 | `totalSend` and the calls about to add to it make up the sum of `sendCount` over all connections ever made; it is the number of calls that report success; `todaySend` is its growth since the last reset |
| Theorems.SendCountIsDeliveries | src/transport.c:394 | `sendCount` is the number of mails accepted on the connection, but for a call between acceptance and count |
| Theorems.MarkIsLastReset | src/transport.c:526-535 | the daily counter counts from the last reset |
| Theorems.IdleChange | src/transport.c:322-326 | every step leaves the idle list alone, takes one connection out, or appends one; a call takes the first |
| Theorems.IdleIsAQueue | src/transport.c:322-326 | connections that stay idle keep their order, and none is taken while one that was idle before it stays |
| Session.DisciplineSimulates | src/smtp.c:162-337 | every trace that the discipline allows keeps the order of commands that RFC 5321, RFC 3207 and RFC 4954 ask for |
| Session.MailOpensTransaction | src/transport.c:380-391 | the discipline puts MAIL after the setup or an accepted RSET |
| Session.DataNeedsEveryRecipient | src/smtp.c:303-325 | the discipline puts DATA after MAIL and a nonempty row of RCPT, all accepted |
| Session.NoopOnlyBetweenTransactions | src/smtp.c:333-337 | the discipline puts NOOP right after a delivered mail or another NOOP |
| Session.FailureIsFinal | src/transport.c:416-427 | the discipline puts nothing but the closing after a failed exchange |
| Session.SummaryBoundsNoops | src/transport.c:259-260 | the running count bounds every row of NOOPs in the trace |
| Session.NeverQuits | src/transport.c:204-233 | the discipline knows no QUIT |
| Session.UnquitWhenClosed | src/transport.c:208-213 | a trace of the discipline that lost no handshake ends a session without QUIT if and only if it contains the closing |
| Closing.QuitRule | src/transport.c:204-233 | in every reachable state, for every connection: the order of commands is kept, QUIT was not said, and the rule that QUIT comes before the closing is broken if and only if the keep-alive thread has closed the socket |
| Closing.ClosesWithoutQuit | src/transport.c:395-427 | a concrete run in which every exchange of a connection is accepted and it is closed without QUIT |
| Shutdown.QuietWithoutClients | src/transport.c:440-444 | with no client left nobody is busy and nobody waits |
| Shutdown.StepDrains | src/transport.c:445-454 | once every connection is told to end, each step lowers a measure and no connection becomes idle |
| Shutdown.DrainBound | src/transport.c:445-454 | after the connections were told to end, no more steps are taken than the measure of that state, those of the daily timer not counted |
| Shutdown.EndWakeHolds | src/transport.c:452-454 | while the main thread sleeps on `endCond` a connection is left or the signal is on its way |
| Shutdown.RestsStranded | src/transport.c:430-434 | where the second loop comes to rest without being done, the transport has a keep-alive thread parked unsignalled on an idle connection |
| Shutdown.StrandedStays | src/transport.c:430-434 | such a thread stays parked, and the main thread keeps waiting |
| Shutdown.NobodyGetsStranded | src/transport.c:245-247 | no step after the connections were told to end parks one |
| Shutdown.DrainsUnlessStranded | src/transport.c:446-455 | from the moment the connections are told to end, run to rest: the second loop ends if and only if no thread was so parked at that moment; then all three lists are empty and every connection is freed |
| Shutdown.DrainedMeansNothingLeft | src/transport.c:452-458 | whenever the main thread has come back all three lists are empty and every keep-alive thread has freed its connection |
| Shutdown.LocksExactly | src/transport.c:442-454 | in the first loop the main thread waits if and only if a connection is busy or somebody waits; after it, if and only if a connection is idle or in a NOOP |
| Shutdown.ChecksExactly | src/transport.c:452-454 | in the second loop it comes back if and only if neither list holds a connection |
| Stranding.Strands | src/transport.c:430-434 | a concrete run of two calls after which the second loop of `abortTpConns` waits for ever |
| Stranding.SleepsOn | src/transport.c:442-444 | a concrete run of two calls after which its first loop waits for ever although no connection is left, every call is done and nobody is stranded |
| Abort.RestsLost | src/transport.c:442-444 | where the first loop comes to rest nothing is busy, nobody waits, every call is done and no broadcast is on its way |
| Abort.LostStays | src/transport.c:442-444 | once the wakeup is lost only the pending signals of calls and the timer are left, and it stays lost |
| Abort.LosesExactly | src/transport.c:343-366 | step by step: the wakeup gets lost if and only if the last waiting call gives up while the main thread sleeps, nothing is busy and no thread is left that would broadcast |
| Abort.CourseHolds | src/transport.c:436-458 | at every moment of every run: asleep in the first loop the main thread has lost its wakeup if and only if such a step was taken; in the second a connection is stranded if and only if one was when the connections were told to end |
| Abort.ComesBackExactly | src/transport.c:436-459 | the whole of `abortTpConns` run to rest: it has come back if and only if it did not lose its wakeup in the first loop and nobody was stranded when it told the connections to end; then all three lists are empty and every connection is freed |
| Clients.BoundHolds | src/pthread_dllist.c:39-46 | the list of clients never exceeds its bound under any interleaving, although the loop tests for equality |
| Clients.NoLostSignal | src/pthread_dllist.c:112-114 | in a run in which no signal was wasted: while a thread sleeps unsignalled and there is room, a signal is due or a woken thread will test again |
| Clients.ShortExactly | src/pthread_dllist.c:40-51 | step by step: a sleeper is left with more free places than threads coming for them if and only if a woken thread leaves without taking a place, by timing out or refused, when the two were equal |
| Clients.WasteTakesTwo | src/pthread_dllist.c:40-51 | such a step takes a second thread that sleeps |
| Clients.SleepsOn | src/pthread_dllist.c:40-45 | a concrete run: one of two waiting threads is signalled and times out, and the other sleeps on beside an empty list |
| Clients.StepKeeps | src/pthread_dllist.c:31-117 | each step of any thread keeps the bound, the list free of duplicates, and on it exactly the threads that were appended |
| Clients.BoundedList.Append | src/pthread_dllist.c:37-71 | on the heap: sleeps while the list is full; otherwise appends, client and node knowing each other, unless the callback says no |
| Clients.BoundedList.Forget | src/pthread_dllist.c:76-86 | before the lock client and node forget each other; the links of the list stay |
| Clients.BoundedList.Delete | src/pthread_dllist.c:88-110 | on the heap: takes out exactly the node of this client |
| Base64.Encode | src/smtp.c:220-256 | writes exactly the bytes it allocates: the padded encoding of section 4 of RFC 4648, CRLF, NUL |
| Base64.BitOperations | src/smtp.c:233-236 | the shifts and masks are the four sextets of the 24-bit group |
| Base64.TablesAgree | src/smtp.c:196-218 | the decoding table inverts the encoding table |
| Base64.DecodeEncoding | src/smtp.c:200-256 | decoding with that table gives back every byte string |
| Base64.EncodingIsInjective | src/smtp.c:220-256 | no two byte strings are encoded alike |
| Base64.EncodingHasNoNul | src/smtp.c:279-280 | as a C string the output is all of it |
| Replies.SmtpExpect | src/smtp.c:42-111 | all outcomes of waiting, reading and checking; the text left in `err`, each error with its own, and whether the code matches |
| Replies.LastLineOf | src/smtp.c:97-105 | of any number of lines in one read the last is kept, whole |
| Replies.LinesMatch | src/smtp.c:83-108 | any lines in one read count as expected if and only if there are four bytes and the last line starts with the code |
| Replies.MultiLineReply | src/smtp.c:97-108 | a reply that is well formed by section 4.2.1 of RFC 5321, a bare last code included, counts as expected if and only if it carries that code |
| Dialogue.Conn.Write | src/smtp.c:12-40 | what is sent is the text up to its first NUL; it counts as sent exactly when it was written whole; each failure has its own error text |
| Dialogue.Conn.SmtpEhlo | src/smtp.c:162-194 | says the steps of the account's mode in order and stops at the first that fails |
| Dialogue.Conn.Login | src/smtp.c:275-293 | says AUTH LOGIN, the encoded name, the encoded password, up to the first that fails; if none does, the three texts in this order |
| Dialogue.Conn.SetUp | src/smtp.c:258-294 | greeting and login, with the password that skips the login and the refusal of other methods |
| Dialogue.Conn.SmtpMailFrom | src/smtp.c:296-301 | sends MAIL with the transport's name, cut to the buffer, and succeeds if and only if that is answered with 250 |
| Dialogue.Conn.SmtpRcptTo | src/smtp.c:303-317 | RCPT for each recipient in order, 251 accepted as well, up to the first failure |
| Dialogue.Conn.SmtpData | src/smtp.c:319-325 | sends DATA, and the mail only after 354; succeeds if and only if the mail is then answered with 250 |
| Dialogue.Conn.SmtpRset | src/smtp.c:327-331 | sends RSET and succeeds if and only if it is answered with 250 or 220 |
| Dialogue.Conn.TpSendMail | src/transport.c:369-428 | all that a call says and the text it leaves, for every way of getting a connection |
| Dialogue.Conn.TestTp | src/transport.c:160-163 | the trial of a transport: the setup, and QUIT if that went well |
| Dialogue.PlayAppend | src/transport.c:389-392 | a row of exchanges joined by `&&` is the first row and, if it went well, the second |
| Verdict.EveryRecipient | src/smtp.c:303-317 | the recipients are accepted if and only if each, in order, is answered with 250 or 251 |
| Verdict.MailAnswered | src/smtp.c:296-337 | a mail succeeds if and only if RSET is answered 250 or 220 on a used connection, MAIL 250, each RCPT 250 or 251, DATA 354, and the text 250 |
| Verdict.SetupAnswered | src/smtp.c:162-294 | a setup succeeds if and only if, in the order of the mode, the handshake is made, the greeting is 220, EHLO is answered 250 and STARTTLS 220, and for a login, which has to be LOGIN, 334, 334 and 235 come back |
| Verdict.TestAnswered | src/transport.c:150-176 | the trial of a transport says QUIT after the setup and wants 221 |
| Verdict.ReplyTells | src/transport.c:369-428 | a call that returns 1 leaves a reply starting with 250; one that returns 0 does so if and only if the failing exchange awaited another code and was answered 250 |
| Verdict.PrefixTestIsExact | php-scripts/Transport.php:56-58 | against a server that never does that the prefix test of the client is exact |
| Verdict.PrefixTestMayFail | php-scripts/Transport.php:56-58 | against one that answers everything with 250 it is not: a concrete script |
| Speaking.StagesSayTheMail | src/transport.c:380-392 | the stages of a call in the interleaving model say what the code says |
| Speaking.SetupSaysTheTrace | src/transport.c:299-306 | a setup that succeeds says the trace with which the interleaving model publishes a connection |
| Speaking.PlayKeepsDiscipline | src/smtp.c:162-337 | a row of exchanges leaves the session where the discipline leads, or broken at the first failure |
| Speaking.MailKeepsDiscipline | src/transport.c:378-427 | a mail takes a session from where it may begin to a delivery, or breaks it off |
| Speaking.CommandIsALine | src/smtp.c:305-308 | a RCPT command keeps its line end if and only if the address has at most 1011 characters |
| Speaking.FailedSetupIsUnquit | src/transport.c:299-311 | a setup that fails, a lost handshake apart, is closed without QUIT as well |
| Speaking.TestKeepsTheRules | src/transport.c:160-171 | the trial of a transport, closed when it went well, keeps every rule, the one about QUIT included |
| Printer.SendRawMail | php-scripts/Transport.php:20-40 | prints sender, recipients, DATA, and the normalised header and body |
| Printer.TrimCuts | php-scripts/Transport.php:20-24 | trimming cuts what it strips off both ends, all of it and nothing else |
| Printer.TrimIs | php-scripts/Transport.php:20-24 | and what is so cut off is all that makes the difference: the middle is determined |
| Printer.ContentIsWhatWasWritten | php-scripts/Transport.php:20-27 | lines written with LF or CRLF between them and white space around are the lines that the mail is made of |
| Lines.ReplaceIsSplitJoin | php-scripts/Transport.php:21-27 | replacing is exploding at one text and imploding with the other |
| Printer.LfThereAndBack | php-scripts/Transport.php:21-22 | turning LF into CRLF and back changes nothing |
| Printer.HeaderIdempotent | php-scripts/Transport.php:20-22 | normalising a header twice is normalising it once |
| Printer.EveryLfAfterCr | php-scripts/Transport.php:22-27 | every LF that is sent has a CR before it |
| Printer.StuffByLines | php-scripts/Transport.php:26 | stuffing doubles the leading dots of every line but the first |
| Printer.DataByLines | php-scripts/Transport.php:37-40 | the text after DATA, line by line |
| Printer.ReceiveExactly | php-scripts/Transport.php:26 | a receiver gets lines back if and only if every leading dot was doubled |
| Printer.StuffingIsTransparent | php-scripts/Transport.php:20-40 | a receiver by section 4.5.2 of RFC 5321 reads the mail as written if and only if no header line and not the first line of the body starts with a dot |
| Recipients.ToList.NewTo | src/rcpt.c:5-23 | walks to the end and appends; the addresses so far stay, in order |
| Parser.CutOne | src/client.c:75-79 | one turn of the loop overwrites a line end and notes the word after it; all words found so far stay C strings |
| Parser.CutRecipients | src/client.c:69-79 | the loop cuts the head into exactly its lines |
| Parser.PrepareSendMail | src/client.c:48-82 | in place, by writing NULs, on the C string that the buffer holds: sender, recipients in order and data are C strings where the pointers point, or the error is the right one |
| Wire.ParseByLines | src/client.c:59-81 | of any text: the first inner line DATA ends the addresses; without one, and without a recipient before it, the text is refused with the words for that |
| Wire.MarkFirst | src/client.c:59 | the DATA line that is found is the first |
| Wire.RoundTrip | src/client.c:48-82 | what is printed is understood as printed if and only if there is a recipient, every address is one line, none is DATA, and nothing contains a NUL |
| Wire.DataCutAtNul | src/client.c:59-65 | a NUL after DATA cuts the mail there, and nothing else is lost |
| Lines.Occurrences | src/client.c:59 | a line stands in a text, line ends before and after, exactly where an inner line has that content |
| Wire.PrintedEndsOnce | php-scripts/Transport.php:20-40 | what is printed contains CRLF.CRLF only as its end if and only if no recipient and no header line is a dot and the body does not start with a line that is one |
| Framer.Reader.OnRead | src/client.c:180-223 | after every read the pointers and lengths agree and stand for the step of the reading loop on the stream; a complete message is handed on whole, a NUL behind it; with no room left the next read has length zero |
| Framer.ReadMessage | src/client.c:150-223 | reads of any size that the buffer has room for: the message is handed on once, when it is complete, as the C string it holds, unless a NUL fills the buffer before; then, and only then, a read of length zero drops the client |
| Framer.Dispatches | src/client.c:180-181 | a message that neither ends early nor has a NUL fill the buffer is handed on once, when its last read returns, in whatever reads it comes |
| Framer.ChunkingDoesNotMatter | src/client.c:180-223 | in whatever reads it comes the result is the message, if and only if no proper prefix looks complete and no NUL before the end fills the buffer |
| Framer.Conversation | src/client.c:150-223 | messages that neither end early nor have a NUL fill the buffer, sent one after the other in whatever reads, are handed on in order |
| EndToEnd.EndsEarlyByLines | src/client.c:181 | a text ends early if and only if a line after the first, or after an empty first, is a dot |
| EndToEnd.ArrivesAsWritten | src/client.c:48-223 | printing, reading, framing, parsing and receiving together are the identity on a mail, in whatever reads, if and only if the format can carry it: NUL-freeness is one of the conditions |
| EndToEnd.NulGoesOut | php-scripts/Transport.php:20-40 | what is printed after DATA contains a NUL if and only if trimming leaves one in the header or the body |
| EndToEnd.InnerNulIsCut | src/client.c:59-65 | a concrete mail with a NUL inside does not arrive: what is understood ends before the NUL, without the final dot |
| EndToEnd.Deliver | src/client.c:48-223 | the code itself, from the printer through the growing buffer to the cuts in place |
| Service.SendMail | src/client.c:84-108 | one message in, one reply out, on all paths |
| Service.ReplyToClient | src/client.c:84-108 | the reply starts with 250 if and only if the mail was delivered or the failing exchange was misled |
| Service.RefusedAtOnce | src/client.c:91-98 | a message that is not understood or whose sender has no transport is answered so, and nothing is said for it |
| Service.AccountIsAsWritten | src/transport.c:54-61 | ssl, auth, user name and password of a sender are the last values that the file gives for these items |
| Service.SetupSends | src/smtp.c:182-293 | a setup has sent EHLO, before it EHLO and STARTTLS for TLS, and the login, word for word |
| Service.LoginSays | src/smtp.c:275-293 | the last three texts of a login are the command, one that decodes to the user name, and one that decodes to the password |
| Service.DeliveredMeansSent | src/transport.c:389-392 | a delivered mail has sent the setup or RSET, and then exactly its sender, every recipient in order, and its data |
| Service.ShortEnough | src/smtp.c:298-308 | addresses of at most 1009 characters for the sender and 1011 for recipients are sent in full |
| Service.ClientSeesTheOutcome | php-scripts/Transport.php:20-59 | for a mail that the format can carry, the client sees success if and only if every exchange went well, and then the server was sent the setup or RSET and exactly this mail, every address that fits the buffer in full |
| Ini.IniParseFile | src/ini.c:62-165 | the line loop with its helpers: the calls of the handler and the first line in error |
| Ini.RStrip | src/ini.c:24-30 | cuts white space off the end, all of it and nothing else |
| Ini.LSkip | src/ini.c:33-38 | cuts white space off the start, all of it and nothing else |
| Ini.FindCharOrComment | src/ini.c:43-51 | stops at the first such character, or at a semicolon after white space, or at the end |
| IniText.TitleParsed | src/ini.c:115-122 | a clean section line gives its name |
| IniText.ItemParsed | src/ini.c:130-147 | a clean item line gives its name and value |
| IniText.ReadsWhatIsWritten | src/ini.c:62-165 | reading a clean file calls the handler with exactly the items written, in order; there is an error if and only if the handler refuses one |
| IniLines.LineRead | src/ini.c:102-151 | blank lines, comments, titles, settings with either mark, spaces and a comment behind the value, continuations and lines in error: what each does to what the loop carries |
| IniLines.ReadsEveryLine | src/ini.c:62-165 | of a file of such lines the handler gets every setting and continuation in order, with its section and name; the number reported is that of the first line in error |
| IniLines.ReadsAfterMark | src/ini.c:95-101 | a byte order mark before the first line makes no difference |
| IniLines.NoteBehindNothing | src/ini.c:137-141 | a comment behind an empty value is taken for the value |
| Settings.Config.FindTpByName | src/transport.c:17-21 | the first transport of that name, or none |
| Settings.Config.TpIniHandler | src/transport.c:46-73 | sets one field of the section's transport, which it makes if need be; accepts the eleven items and refuses any other, after making the transport |
| Settings.FoldInOrder | src/transport.c:46-52 | the transports are the sections in the order in which they are first named |
| Settings.FoldHoldsLast | src/transport.c:54-66 | every field holds the last value given for it |
| Settings.LastValueIs | src/transport.c:54-66 | the last value is that of a call after which the item is not given again |
| Settings.AtoiReads | src/transport.c:55 | white space and a plus sign are skipped, a minus sign negates, the digits count in tens, and reading stops at the first character that is none |
| Settings.AtoiForm | src/transport.c:55 | every text is of that form |
| Settings.AtoiOfDecimal | src/transport.c:55 | every integer is read as it is written in decimal |
| Settings.TransportsOf | src/transport.c:46-73 | names pairwise distinct, in the order of first mention, each field holding its last value |
| Settings.FindsTheTransport | src/transport.c:17-21 | a sender finds a transport if and only if the file names it, and then the only one |
| Settings.LoadsWhatIsWritten | src/transport.c:178-202 | writing a clean file and loading it gives exactly the transports written |
| Settings.LoadsEveryLine | src/transport.c:178-202 | so does a file with comments, continuations and lines in error |
| Settings.LoadsNumbers | src/transport.c:62-66 | a number written in decimal is the number that the transport gets |

## Left out

- Sockets, name resolution, OpenSSL, poll and real time: replaced by free outcomes; a timed wait may time out whenever it sleeps.
- Failures of `poll`, `read` and `write` on a client's socket, which end its thread: the reading loop is modelled up to them.
- Spurious wakeups of the main thread and of parked keep-alive threads once the main thread is in `abortTpConns`: `Abort.ComesBackExactly` is about runs without them; calls may wake spuriously in it.
- How long the first loop lasts: a busy connection may talk for ever, so only runs that come to rest are judged.
- Partial writes over TLS: `SSL_write` is whole or fails unless SSL_MODE_ENABLE_PARTIAL_WRITE is set, which src/smtp.c:151 does not do.
- A call between the `blocked` test (src/client.c:188-192) and the pool's mutex when `abortTpConns` begins: assumed absent, since it is invisible to src/transport.c:442; freeing transports on reload is not modelled.
- Lifetime of a connection at the signals after the unlock (src/transport.c:410, 426), and of the transport at the signals in `endConn`: a signal to a connection that is gone does nothing in the model.
- Whether a timed-out client really had no connection: src/transport.c:344-349 does not test again, and neither does the model.
- The delay in `initTodaySendResetTimer`: only the reset is a step.
- Width and overflow of C integers, in counters, lengths and `atoi`.
- Threads that `abortClients` cancels, and its own wait on the condition of the client list, which may take a signal from a waiting thread.
- `pthread_dllistVisit` against a concurrent delete: the `data` field is cleared before the lock is taken, so only structure and counts are claimed.
- Cutting in place in `src/ini.c`: the helpers work on values instead of the line buffer; which text each of them yields is modelled, aliasing within the buffer is not.
- The recipient list inside `smtpRCPTTO` and the strings it points to are passed as a sequence; `Service.Collect` reads it off the linked list.
- `freeToList`, `freeTp` and other releases of memory, except the unlinking of connections.
- Locales and characters beyond bytes: a string is a sequence of characters, `isspace` is that of the C locale, and encoding plays no part.
- DList.DList.Visit: the handler may change its argument but not the elements; the visit that sets end flags is `Transport.Tp.FlagList`.
- Closing of a connection after the channel broke, which RFC 5321 (section 3.8) excuses: a failed exchange does not tell a broken channel from a refusal, so `Closing.QuitRule` counts every closing.
- Verdict.PrefixTestIsExact: needs the server's good behaviour as a hypothesis, because the statement is false without it; `Verdict.ReplyTells` has no such hypothesis.
- Theorems.SendLimit: says nothing for a limit below 1, where the test for equality never succeeds and sends are not limited.
- Theorems.NoopLimit: says nothing for a limit below 1, for the same reason.
- Logging, the report thread, signal handling, command-line options and the shell scripts: plumbing with only easy facts.
