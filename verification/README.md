# The message bus daemon and the Vigenere cipher, in Dafny

This project models the stateful core of the D-Bus 1.4.16 message bus daemon (`Python/dbus-1.4.16/bus`) and the cipher of
`Javascript/vigenere.js`, and proves what they promise: over every run, every input and every failure of memory that the
code handles. `dafny verify dfyconfig.toml` checks all of it.

## How it is built

Each component has three parts. A module of functions says what one operation does to a state that is a plain value; a
`class` with the source's fields does it in place, with the source's loops and early exits, and is proved to do exactly
that; and a module of lemmas proves properties of the functions, and so of the classes. An object reached by address is
a cell of an arena, so that freed memory, sharing and reference counts can be spoken of. Where memory may run out, the
place where it does is an input; so are the answers of what is not modelled (policies, SELinux, the file system, the
clock, child processes). A failed assertion of the source, or a use of freed memory, is a visible outcome: `None`, or a
flag turning false. The lemmas show that those on hooks, counts, references and freed memory never come, and exactly when
those come that say of a failure that its error is set (`RunErrors`, `AppearErrors`).

| component | functions | in place | lemmas |
|---|---|---|---|
| pending replies (connection.c) | `PendingReplies` | `PendingReplyTable` | `PendingRepliesProofs`, `ReplyExpiry` |
| transactions (connection.c) | `Transactions` | `TransactionQueues` | `Transactions` |
| security gate and dispatch (bus.c, dispatch.c) | `Dispatch` | `MessageBus` | `DispatchProofs`, `DispatchOutcomes`, `DispatchOutboxes`, `BusTurns` |
| connection lists (connection.c, driver.c) | `ConnectionLists` | `ConnectionTable` | `ConnectionListsProofs`, `ConnectionOutcomes` |
| service activation (activation.c) | `Activations`, `ActivationReplies` | `ServiceActivation`, `ActivationMessages` | `ActivationProofs`, `ActivationRuns`, `ActivationErrors`, `ActivationUndo`, `ActivationRepliesProofs`, `ActivationRequests`, `Appearances`, `HeldBackMessages`, `ActivationAnswers`, `ActivationInstances`, `AnswersSaid` |
| service file cache (activation.c) | `ServiceFiles` | `ServiceCache` | `ServiceFilesProofs`, `ServiceLookups`, `ServiceReloads`, `ReloadedServices`, `ConfiguredServices` |
| .service files (desktop-file.c) | `DesktopFile` | `DesktopFileParser` | `DesktopFileProofs`, `DesktopFileLines`, `ServiceFileText` |
| configuration (config-parser*.c) | `ConfigElements`, `ConfigParser` | `BusConfigParser` | `ConfigInlining`, `ConfigStack`, `ConfigMeaning`, `ConfigAcceptance` |
| cipher (vigenere.js) | `Vigenere` | `Vigenere` | `Vigenere` |

`BusTypes` holds messages and identifiers, `Lists` the parts of DBusList that the bus relies on.

## The main results

* Cancelling a transaction undoes its pending replies exactly, and needs the hooks newest first (`CancelRestores`,
  `OldestFirstFails`); over every run a call is answered at most once and ends in one way (`EveryRun`, `AnsweredOnce`,
  `EndsOnce`, `OneErrorEach`). Which calls an expiry ends, and who is told, is said on their dates and the timeout; one
  whose callee is gone always ends (`ExpireExactly`, `GoneCalleeIsTold`).
* Transactions are all or nothing and first in, first out per connection, whatever happens beside them
  (`DeliversInOrder`), and so is each message through the whole bus (`DispatchKeeps`, `EveryLoop`, `Context.Turn`). What
  the gate decides, and which calls and replies are lost, is said on the inputs (`GateDecides`, `ReplyEndsCall`,
  `UndeliveredCallOutstanding`), and so is what a message adds to the outbox of every connection (`DispatchSends`).
* Every exit of service activation keeps reference counts, the count of waiting requests and its limit
  (`ActivateKeeps`, `ActivationRuns.EveryRun`), and cancelling has its exact effect (`RequestCancelled`). Failures are
  answered once however often memory fails (`FailureAnswersOnce`), and over every run, with names that come and go, it
  is exact how often each request is answered and each message that was held back is sent on (`DealtAtMost`,
  `DealtExactly`, `DealtOnceIff`, `DealsArrive`). What the answers say is given field by field (`ComingSays`,
  `FailingSays`).
* Including configuration files means inlining them (`IncludingIsInlining`), and the small parser sees what the large one
  sees (`TrivialSeesTheTop`). A file without includes loads exactly if all stands where it may, and its settings are
  given by the names, attributes and texts of its elements (`FileLoadsIff`, `FileMeans`).
* The two indexes of service files agree over every run of reloads and lookups, given the distinct directories that the
  configuration gives (`ServiceReloads.EveryRun`, `ConfiguredDirectories`); a reload frees all there was
  (`FreeAllFrees`) and then knows exactly what the listed files give, the first of them that give a name
  (`ReloadKnows`). Lookups are sound (`FindIsSound`), and miss a file exactly when that is said (`FindIff`).
* .service files survive a round trip in any layout (`ParseRender`, `RoundTrip`), and what can be parsed is what can be
  written (`ParsedIffWritable`). What every line says, and which texts are refused, with which error and line, is said
  character by character (`LineSaysIff`, `LoadRefusedIff`).
* Counters, limits and the early exit of the expiry of connections are right over every run
  (`ConnectionListsProofs.EveryRun`); which connections are closed, and when a hello succeeds, is exact (`SetUpCloses`,
  `HelloDecides`).
* Deciphering undoes enciphering up to case (`ThereAndBack`), and each character moves as the alphabet and the key say
  (`EncipheredBy`, `ShiftMoves`).

## Where the code departs from what it seems to promise

These are modelled as coded; where a lemma says exactly when, it is named.

* A lower case letter that lands on a digit comes back from the cipher in upper case (`ThereAndBack`, `CaseIsLost`).
* The gate refuses without setting an error exactly when the recipient's policy does not let it receive the message
  (bus.c:1612-1624, `GateDecides`). Such a message is dropped without a word to its sender. In handing a service over to
  systemd, and in dispatching what was held back for a service, it also fails an assertion that the error is set
  (activation.c:2010 and driver.c:2005; `ActivateErrors`, `FirstRequestFails`, `AppearErrors`, `SilentlyRefusedFails`).
* A requested reply that is refused still ends its call, if silently or if the report of the error gets out: the
  transaction is executed, not cancelled, on errors other than lack of memory (dispatch.c:353-401; `ReplyEndsCall`,
  `ReplyIsLost`). A call refused for its file descriptors, or ignored because its recipient's connection was just
  closed, stays recorded although it was not delivered (dispatch.c:116-131, connection.c:2055-2056;
  `UndeliveredCallOutstanding`, `UndeliveredIsOutstanding`, `IgnoredIsOutstanding`).
* A launch that fails with an error, other than for lack of memory or wrong arguments, leaves its request on record: who
  asked is told of that error, and once more by the timeout, or that the service came (activation.c:1998, 2010, 2035-2040
  and 2114-2132, dispatch.c:374-400; `LaunchDecides`, `RefusedLaunchTells`, `LaunchErrorTwice`).
* When a message held back for a starting service is refused, the service's request for its name fails but its
  transaction is executed: those who asked for the service are told it came, and when the activation times out, that it
  did not (services.c:291 and 593, activation.c:1188-1206). So it is when memory runs out and the service is gone by then
  (dispatch.c:356-362). When it asks for its name again nobody is told, but what was held back is dispatched from the
  start, and so sent on twice if it came before the refused one (services.c:255-258; `AppearEnds`, `DealtOnceIff`,
  `ReallyToldTwice`, `SentOnTwice`).
* Cancelling a request that joined an activation drops the activation for all who wait; and the request for systemd that
  a request makes is not cancelled with it, since its own transaction was executed before (activation.c:1489-1502 and
  2016; `RequestCancelled`, `SystemdIsLeftWaiting`).
* Between two overlapping transactions the same call could be recorded twice (`OverlapBreaksUniqueness`); the bus does not
  overlap them.
* Beyond the maximum of incomplete connections the oldest in the list is closed, also if it was closed before and is not
  gone yet; then one more than the maximum is open (connection.c:718-732; `TooManyIff`, `ClosedTwice`). It does not come
  to that if closed connections go before others come (`NeverTooMany`).
* The count of a user's connections is not rolled back when log info fails (connection.c:1383-1394); it stays too high by
  exactly the number of such failures (`ConnectionListsProofs.EveryRun`).
* A name clash leaves a service file's entry in its directory's table only (activation.c:426-437), and a hash table
  without room keeps the reference that was made for it (activation.c:408, 414 and 456): it is leaked, so counts are
  then bounds (`ServiceReloads.EveryRun`). The same directory twice would leave dangling entries
  (`RepeatedDirectoryFails`).
* An entry that a clash left takes its old name off the table when its file is renamed or gone, also from another entry
  that got the name since; that service is then not found any more (activation.c:426 and 516; `FindIff`,
  `ServiceIsLost`).
* `is_valid_section_name` accepts every name (desktop-file.c:378-393), although its comment forbids brackets and control
  characters; `is_blank_line` looks past a lone carriage return that `_dbus_string_find_eol` takes for an end of line,
  whose own comment does not mention it (dbus-string.c:1902-1912; `ParseRender`, `BlankWithLoneReturn`); a key line
  before any section header would index the sections at -1 (desktop-file.c:325), which the model reports as `NoSection`.
* An ignored include also swallows a "file not found" of a file it includes itself, and an included directory swallows
  all errors of its files (config-parser.c:2118-2133, 2230-2253). `merge_included` does not carry servicehelper, syslog or
  allow_anonymous (config-parser.c:279-340). The trivial parser puts a text before what the setting holds and does not
  remove repeated service directories (config-parser-trivial.c:237-295).

## Model

| member | source | states |
|---|---|---|
| `PendingReplyTable.ReplyTable.ExpectReply` | Python/dbus-1.4.16/bus/connection.c:1665-1776 | recording a call: refuses a duplicate of a live call and a caller at its limit, otherwise puts one pending reply at the head of the list with a hook that undoes it; every allocation failure leaves list and hooks as they were |
| `PendingReplyTable.ReplyTable.CheckReply` | Python/dbus-1.4.16/bus/connection.c:1821-1888 | a reply is requested exactly if a listed pending reply awaits it; that one leaves the list and is held by a new hook; without memory nothing changes |
| `PendingReplyTable.ReplyTable.CancelTransaction` | Python/dbus-1.4.16/bus/connection.c:2147-2165 | runs the hooks newest first, each undoing its own step, then forgets them |
| `PendingReplyTable.ReplyTable.ExecuteTransaction` | Python/dbus-1.4.16/bus/connection.c:2205-2223 | frees the hooks; a pending reply that a check held is freed with its hook |
| `PendingReplyTable.ReplyTable.DropPendingReplies` | Python/dbus-1.4.16/bus/connection.c:1568-1624 | a disconnected caller's pending replies go; those it should have answered lose their replier and become due at once |
| `PendingReplyTable.ReplyTable.ExpireReplies` | Python/dbus-1.4.16/bus/expirelist.c:136-195 | the scan of the expire list in place, up to the first failure for lack of memory; which calls it ends, and who is told, is said on dates and timeout by the lemmas of ReplyExpiry |
| `PendingRepliesProofs.CancelRestores` | Python/dbus-1.4.16/bus/connection.c:2147-2165 | for every sequence of expect and check operations of a transaction, with any memory failures, cancelling leaves the same pending replies as before and no assertion of a hook fails |
| `PendingRepliesProofs.OldestFirstFails` | Python/dbus-1.4.16/bus/connection.c:2296-2306 | running the hooks oldest first would fail an assertion: a concrete transaction |
| `PendingRepliesProofs.OverlapBreaksUniqueness` | Python/dbus-1.4.16/bus/connection.c:1686-1732 | if two transactions could overlap, a cancelled check would put a second pending reply beside a newly recorded one: a concrete pair |
| `PendingRepliesProofs.CheckKeeps` | Python/dbus-1.4.16/bus/connection.c:1821-1888 | a check keeps every pending reply owned once, by the list or by one hook |
| `PendingRepliesProofs.ExpectKeeps` | Python/dbus-1.4.16/bus/connection.c:1665-1776 | recording keeps ownership, uniqueness of (caller, replier, serial) and the limit of each caller |
| `PendingRepliesProofs.CommitKeeps` | Python/dbus-1.4.16/bus/connection.c:1797-1815 | executing frees exactly what the check hooks held and keeps the invariant |
| `PendingRepliesProofs.DropEffect` | Python/dbus-1.4.16/bus/connection.c:1568-1624 | exact effect of a disconnection: the caller's entries are gone, those it should have answered stay with no replier and due at once, the others are untouched, in the same order |
| `PendingRepliesProofs.ExpireOnlyDue` | Python/dbus-1.4.16/bus/expirelist.c:155-189 | expiry frees only pending replies that are due; all others are untouched |
| `PendingRepliesProofs.ExpireAllDue` | Python/dbus-1.4.16/bus/expirelist.c:146-192 | with memory for every error, nothing that is due is left on the list |
| `PendingRepliesProofs.EveryRun` | Python/dbus-1.4.16/bus/connection.c:1486-1888 | over every run of transactions, disconnections and expiries: each live pending reply is in the list or held by exactly one hook, no two listed ones share caller, replier and serial, and no caller exceeds the maximum; no assertion fails |
| `PendingRepliesProofs.EndsOnce` | Python/dbus-1.4.16/bus/connection.c:1526-1566 | whatever happens later, a pending reply that has ended stays ended in the way it ended, so it is freed once; a live one stays the call of the same caller and serial |
| `PendingRepliesProofs.CheckDecides` | Python/dbus-1.4.16/bus/connection.c:1842-1868 | in every reachable state a reply is requested if and only if its call is outstanding, and then it no longer is |
| `PendingRepliesProofs.ExpectDecides` | Python/dbus-1.4.16/bus/connection.c:1686-1732 | in every reachable state a call that wants a reply is recorded if and only if it is not outstanding already, the caller is below the limit and memory suffices; it is refused if and only if it is outstanding or the caller is at the limit; nothing but a recorded call becomes outstanding |
| `PendingRepliesProofs.AnswerCloses` | Python/dbus-1.4.16/bus/connection.c:1821-1888 | executing a transaction that let a reply through closes the call, whatever else the transaction did |
| `PendingRepliesProofs.AnsweredOnce` | Python/dbus-1.4.16/bus/bus.c:1492-1511 | a second reply with the same serial is never requested, over any continuation of the run, unless the call is recorded again |
| `PendingRepliesProofs.StaysOpen` | Python/dbus-1.4.16/bus/connection.c:1486-1888 | a call stays outstanding until its reply is let through in an executed transaction, it is due to expire, or its caller or replier disconnects |
| `PendingRepliesProofs.DisconnectForgets` | Python/dbus-1.4.16/bus/connection.c:1579-1621 | after a disconnection no call to or from that connection is outstanding |
| `PendingRepliesProofs.OneErrorEach` | Python/dbus-1.4.16/bus/connection.c:1486-1523 | an expiry sends as many no-reply errors as pending replies it ended, one each |
| `ReplyExpiry.ExpireExactly` | Python/dbus-1.4.16/bus/expirelist.c:136-195 | an expiry ends exactly the calls dated zero, and those for which the timeout is set and has passed, in the order of the list and as far as memory lasts, with one error for each, to its caller and with its serial; every other is as it was |
| `ReplyExpiry.WaitingEndsIff` | Python/dbus-1.4.16/bus/expirelist.c:155-189 | with memory for all, one call ends if and only if it is dated zero, or the timeout is positive and so many milliseconds have passed since it was recorded |
| `ReplyExpiry.GoneCalleeIsTold` | Python/dbus-1.4.16/bus/connection.c:1568-1624 | a call whose callee is gone ends at the next expiry whatever the timeout, even with none, and exactly one of the errors is for it |
| `ReplyExpiry.RecordedThenExpires` | Python/dbus-1.4.16/bus/expirelist.c:155-189 | a call recorded now is outstanding, and no longer after an expiry if and only if the timeout is set and has passed, or the clock stood at zero |
| `BusTurns.TurnForgets` | Python/dbus-1.4.16/bus/connection.c:228-285 | when a connection goes, of every pending reply: its own are over, those it owed are dated zero and have no replier, all others are as they were; its queue goes and nobody is sent anything |
| `BusTurns.TurnExpires` | Python/dbus-1.4.16/bus/expirelist.c:136-195 | an expiry of the bus is that with its configured timeout, and leaves queues and outboxes alone |
| `TransactionQueues.TakeMessages` | Python/dbus-1.4.16/bus/connection.c:2168-2203 | walking a queue from its last link takes exactly the transaction's messages, in send order, and keeps the rest |
| `TransactionQueues.Queues.Send` | Python/dbus-1.4.16/bus/connection.c:2031-2117 | queues the message at the head and lists the connection once; a disconnected recipient is ignored; every failure leaves everything as it was |
| `TransactionQueues.Queues.CancelAndFree` | Python/dbus-1.4.16/bus/connection.c:2119-2165 | takes the transaction's messages off every listed connection and sends none |
| `TransactionQueues.Queues.ExecuteAndFree` | Python/dbus-1.4.16/bus/connection.c:2167-2223 | hands over each listed connection's messages of the transaction, oldest first |
| `TransactionQueues.Queues.RemoveTransactions` | Python/dbus-1.4.16/bus/connection.c:2225-2243 | a dropped connection leaves the lists of all transactions it holds messages of |
| `Transactions.ExecuteSendsAll` | Python/dbus-1.4.16/bus/connection.c:2205-2223 | all: every connection is sent exactly the transaction's messages, in send order; other transactions' queues are unchanged and the invariant is kept |
| `Transactions.CancelSendsNothing` | Python/dbus-1.4.16/bus/connection.c:2147-2165 | or nothing: no connection is sent anything, and the queues end as if executed |
| `Transactions.DropEffect` | Python/dbus-1.4.16/bus/connection.c:2225-2243 | dropping a connection empties its queue and removes it from exactly the transactions it held messages of, each listed once |
| `Transactions.StepKeeps` | Python/dbus-1.4.16/bus/connection.c:2031-2243 | every operation keeps: a connection is listed in an open transaction exactly once if it holds a message of it, and otherwise not |
| `Transactions.DeliversInOrder` | Python/dbus-1.4.16/bus/connection.c:2031-2223 | over every run of other transactions, connections and disconnections, an executed transaction delivers to each connection that stayed exactly what was accepted for it, in order; a cancelled one nothing |
| `MessageBus.Context.CheckSecurityPolicy` | Python/dbus-1.4.16/bus/bus.c:1407-1660 | the gate as state change: at most one check and then at most one expectation, in the transaction of the message; every refusal sets an error but that of the receive policy |
| `MessageBus.Context.SendOneMessage` | Python/dbus-1.4.16/bus/dispatch.c:56-87 | a listener is skipped on any refusal and fails only for lack of memory; which message it is sent, and how often, is said by DispatchSends |
| `MessageBus.Context.DispatchMatches` | Python/dbus-1.4.16/bus/dispatch.c:88-178 | the addressed recipient first, then the listeners, up to the first failure |
| `MessageBus.Context.SendFromDriver` | Python/dbus-1.4.16/bus/connection.c:1990-2029 | a message of the driver's own: policy may eat it silently |
| `MessageBus.Context.ReportFailure` | Python/dbus-1.4.16/bus/dispatch.c:353-401 | lack of memory cancels the transaction; any other error is reported in it, and it is executed if the report gets out; a failure without an error, or a sender that is gone, has it executed with no report |
| `MessageBus.Context.DispatchMessage` | Python/dbus-1.4.16/bus/dispatch.c:181-406 | one message through an idle bus, from the point where its recipient is known: its transaction can always be ended, and the bus is idle again |
| `MessageBus.Context.DropConnection` | Python/dbus-1.4.16/bus/connection.c:228-285 | once it has released its names, a disconnected connection's messages, pending replies and data go, and an idle bus stays idle |
| `MessageBus.Context.Turn` | Python/dbus-1.4.16/bus/dispatch.c:181-406 | every turn of the main loop, in place: an idle bus meets what each step asks of it, so no assertion on hooks or transactions fails, and stays idle |
| `DispatchProofs.GateIsOps` | Python/dbus-1.4.16/bus/bus.c:1407-1660 | the gate touches the pending replies by at most one check and then one expectation, and not at all when the proposed recipient is not the addressed one |
| `DispatchProofs.ListenersOnlyListen` | Python/dbus-1.4.16/bus/dispatch.c:140-176 | deliveries to eavesdroppers never consume or record a pending reply |
| `DispatchProofs.DispatchKeeps` | Python/dbus-1.4.16/bus/dispatch.c:181-406 | one message is one transaction: the invariants hold after it, nothing of it stays queued, and nothing is sent unless it is executed |
| `DispatchProofs.OutOfMemoryUndoes` | Python/dbus-1.4.16/bus/dispatch.c:363-372 | a message that runs out of memory leaves pending replies and queues as they were and sends nothing |
| `DispatchProofs.EveryLoop` | Python/dbus-1.4.16/bus/dispatch.c:181-406 | over every run of messages, connections, disconnections and expiries from the start of the bus, no assertion on hooks or transactions fails, and between messages no transaction is open and no queue holds a message |
| `DispatchProofs.GateSaysRequested` | Python/dbus-1.4.16/bus/bus.c:1492-1511 | the policies are told that a reply is requested exactly when its call is outstanding |
| `DispatchProofs.DeliveredOnce` | Python/dbus-1.4.16/bus/dispatch.c:88-131 | the addressed recipient is sent the message once if it was queued and the transaction is executed, and otherwise not at all, besides the report of a refusal if it sent the message itself; with both still connected, that is if and only if the attempt met no error |
| `DispatchOutboxes.DispatchSends` | Python/dbus-1.4.16/bus/dispatch.c:56-178 | for every message and every connection, what is added to its outbox: for the addressed recipient the message itself, once, if it reaches it; for any other connection the message itself, once for each time that it is listed, hears it and is connected, as far as memory lasts; for the sender an Error with its serial as reply serial, if it was refused aloud; nothing else, and nothing at all if the transaction is cancelled |
| `DispatchOutboxes.SignalArrives` | Python/dbus-1.4.16/bus/dispatch.c:79-81 | a concrete signal, which a listener is sent as it is |
| `DispatchProofs.CallIsRecorded` | Python/dbus-1.4.16/bus/bus.c:1645-1656 | a call that wants a reply, passes the gate and is not cancelled is outstanding afterwards |
| `DispatchProofs.CallThenReply` | Python/dbus-1.4.16/bus/bus.c:1492-1511 | the callee's reply to a call that went through is then taken for a requested one |
| `DispatchOutcomes.GateDecides` | Python/dbus-1.4.16/bus/bus.c:1407-1660 | the gate's decision on its inputs and the calls outstanding: it fails without an error if and only if the sender's policy lets the message through and the recipient's does not; when it refuses with an error, when memory fails it, and when it passes |
| `DispatchOutcomes.DeliveryDecides` | Python/dbus-1.4.16/bus/dispatch.c:88-131 | the same for the delivery, which is also refused for file descriptors the recipient does not take |
| `DispatchOutcomes.DriverRefusedSilently` | Python/dbus-1.4.16/bus/bus.c:1612-1624 | a message of the driver's is refused without an error if and only if the recipient's policy does not let it through |
| `DispatchOutcomes.ListenersDecide` | Python/dbus-1.4.16/bus/dispatch.c:140-176 | eavesdroppers make a delivery fail if and only if memory fails for one that hears it and is connected, in the order of the listing |
| `DispatchOutcomes.EndsUnqueued` | Python/dbus-1.4.16/bus/dispatch.c:353-401 | exactly when a message is dropped and its transaction executed all the same; the recipient's connection may be closed, and the recipient may be the sender |
| `DispatchOutcomes.UndeliveredCallOutstanding` | Python/dbus-1.4.16/bus/dispatch.c:88-131 | a new call ends up outstanding though never delivered if and only if it passes the gate and is dropped for its file descriptors, the error for the caller getting out; or its callee's connection is closed, memory lasts for the listeners, or the caller is gone too; or its caller is gone and it could not be queued |
| `DispatchOutcomes.UndeliveredIsOutstanding` | Python/dbus-1.4.16/bus/dispatch.c:116-131 | a concrete call with file descriptors that is refused and yet outstanding |
| `DispatchOutcomes.IgnoredIsOutstanding` | Python/dbus-1.4.16/bus/connection.c:2031-2056 | a concrete call to a connection just closed, which is ignored without an error and yet outstanding |
| `DispatchOutcomes.ReplyEndsCall` | Python/dbus-1.4.16/bus/dispatch.c:353-401 | a requested reply reaches the caller and ends the call, or is undone and the call stays outstanding, or ends the call with no reply sent to the caller; the last if and only if the caller's policy refuses it, or the replier's policy, the queue or file descriptors do and the report of that gets out, or the caller's connection is closed, or the replier is gone and it is not queued |
| `DispatchOutcomes.ReplyIsLost` | Python/dbus-1.4.16/bus/bus.c:1616-1624 | concrete replies, refused silently and aloud, that end the call while the caller gets nothing |
| `BusConfigParser.Parser.AddServiceDirs` | Python/dbus-1.4.16/bus/config-parser.c:233-277 | service directories are appended in order, each only if not there yet |
| `BusConfigParser.Parser.MergeIncluded` | Python/dbus-1.4.16/bus/config-parser.c:279-340 | texts of the included file override, flags add up, lists and tables are appended, and its limits are copied back |
| `BusConfigParser.Parser.Handle` | Python/dbus-1.4.16/bus/config-parser.c:1760-2588 | one start, end or text event of the full parser in place, with nested inclusion; the included-files stack is as before on every return; what is accepted and what it sets is said by FileLoadsIff and FileMeans |
| `BusConfigParser.Parser.IncludeFile` | Python/dbus-1.4.16/bus/config-parser.c:2079-2150 | a file that cannot be included, or is ignored, changes no setting; the included-files stack is restored either way, and no nested load is given a stack with a file twice |
| `BusConfigParser.Parser.IncludeDirectory` | Python/dbus-1.4.16/bus/config-parser.c:2186-2287 | the .conf files of a directory in turn, whose own errors are ignored |
| `BusConfigParser.Parser.Load` | Python/dbus-1.4.16/bus/config-parser.c:360-465 | a whole file, from a parser that takes limits and included-files stack from its parent |
| `BusConfigParser.Parser.LoadTop` | Python/dbus-1.4.16/bus/config-parser.c:2590-2615 | the configuration itself: included files start from an empty stack, and there must be an address to listen on |
| `BusConfigParser.TrivialParser.Handle` | Python/dbus-1.4.16/bus/config-parser-trivial.c:153-304 | one event of the memory-poor parser |
| `ConfigParser.UnseenShrinks` | Python/dbus-1.4.16/bus/config-parser.c:342-358 | each nested load leaves strictly fewer files that may still be included, so inclusion ends |
| `ConfigInlining.AppendDeduplicated` | Python/dbus-1.4.16/bus/config-parser.c:253-277 | appending and deduplicating in the included file first or at the point of inclusion gives the same list |
| `ConfigInlining.FileTracks` | Python/dbus-1.4.16/bus/config-parser.c:2079-2150 | an included file, merged, leaves the settings that its elements would have left in the including file |
| `ConfigInlining.IncludingIsInlining` | Python/dbus-1.4.16/bus/config-parser.c:279-340 | for every configuration with arbitrarily nested includes: same carried settings, policies and limits as the one file with all inlined, and the same error if any |
| `ConfigInlining.FileDistinct` | Python/dbus-1.4.16/bus/config-parser.c:233-277 | the service directories of every configuration are distinct |
| `ConfigMeaning.FileMeans` | Python/dbus-1.4.16/bus/config-parser.c:2290-2588 | every file without includes that loads, by the names of its elements: addresses, mechanisms and service directories are the texts of listen, auth and servicedir in order, the last with full path, among the standard ones and each where it comes first; user, type, pidfile and service helper are the last such text; a flag holds if and only if its element occurs; each limit and each context is the last one given, or inherited; each scope has the rules of its policies in order |
| `ConfigMeaning.LimitEnds` | Python/dbus-1.4.16/bus/config-parser.c:1826-1953 | a limit is accepted if and only if it had a number and is a known name with a value in its range |
| `ConfigMeaning.IncludeTarget` | Python/dbus-1.4.16/bus/config-parser.c:2363-2410 | the file an include element names, by its attributes and text, and when it is skipped for SELinux |
| `ConfigMeaning.ConfFiles` | Python/dbus-1.4.16/bus/config-parser.c:2230-2245 | of a directory exactly the names that end in .conf are included |
| `ConfigAcceptance.FileLoadsIff` | Python/dbus-1.4.16/bus/config-parser.c:1761-2046 | a file without includes loads if and only if it is well-formed, its elements are balanced in one busconfig, and every start, end and text may stand where it stands: each element with its attributes, where it is known; one text in the elements that need one, and white space elsewhere; rules that the policy they are in can have; limits in their ranges |
| `ConfigAcceptance.ChildStarts` | Python/dbus-1.4.16/bus/config-parser.c:670-1130 | what may stand in busconfig, exactly, with its attributes |
| `ConfigAcceptance.IncludeStarts` | Python/dbus-1.4.16/bus/config-parser.c:895-1000 | an include is accepted if and only if it has its three attributes at most once each, and no others, with yes or no |
| `ConfigAcceptance.TopLoadsIff` | Python/dbus-1.4.16/bus/config-parser.c:2591-2615 | the top file is accepted if and only if it loads and has an address to listen on |
| `ConfigAcceptance.UnsetIsDefault` | Python/dbus-1.4.16/bus/config-parser.c:395-460 | a limit that no element sets has its default, number by number |
| `ConfigElements.NamesAndTypes` | Python/dbus-1.4.16/bus/config-parser-common.c:31-189 | names and types of elements are inverse maps, for all types and all strings |
| `ConfigStack.StackAlwaysShaped` | Python/dbus-1.4.16/bus/config-parser.c:1760-2046 | on every event stream the full parser accepts, the stack is empty, busconfig, busconfig and a child, a rule in a policy, or an association in selinux |
| `ConfigStack.AlwaysAgrees` | Python/dbus-1.4.16/bus/config-parser-trivial.c:153-196 | inside an element that expects text, the trivial parser's one remembered type is the stack's top, at every point of an accepted stream |
| `ConfigStack.TrivialSeesTheTop` | Python/dbus-1.4.16/bus/config-parser-trivial.c:237-295 | wherever the full parser accepts text other than white space, the trivial parser files it under the type on top of the full parser's stack |
| `ConfigMeaning.TrivialMeans` | Python/dbus-1.4.16/bus/config-parser-trivial.c:237-295 | the trivial parser holds user, type and service helper as the texts that came while that was the last element to start, trimmed, the latest in front |
| `ConfigMeaning.TrivialDirs` | Python/dbus-1.4.16/bus/config-parser-trivial.c:237-295 | and the directories as given, with the standard system ones if they are asked for |
| `ConfigMeaning.ChopTrims` | Python/dbus-1.4.16/dbus/dbus-string.c:2270-2286 | chopping takes the white space off both ends and no more |
| `ServiceActivation.BusActivation.Unref` | Python/dbus-1.4.16/bus/activation.c:165-223 | the last reference frees the activation and takes its requests off the count |
| `ServiceActivation.BusActivation.CallHook` | Python/dbus-1.4.16/bus/activation.c:1031-1051 | restoring puts the activation back under its name with a reference for the table; cancelling removes what is there under the name |
| `ServiceActivation.BusActivation.CreatePending` | Python/dbus-1.4.16/bus/activation.c:1795-1904 | a new activation through each of its early exits: on failure nothing is left on record |
| `ServiceActivation.BusActivation.AddHook` | Python/dbus-1.4.16/bus/activation.c:1906-1915 | the cancel hook takes a reference; without memory for it the whole activation is dropped |
| `ServiceActivation.BusActivation.ActivateService` | Python/dbus-1.4.16/bus/activation.c:1684-2152 | the whole call, with all exits, the nested activation of systemd, and the assertion that a failed hand-over has set its error |
| `ServiceActivation.BusActivation.DeliverPending` | Python/dbus-1.4.16/bus/activation.c:1167-1221 | the activation leaves the table with a hook that restores it, once its messages are dispatched |
| `ServiceActivation.BusActivation.ActivationFailed` | Python/dbus-1.4.16/bus/activation.c:1275-1286 | a failed activation leaves the table |
| `ServiceActivation.BusActivation.FailThoseSharing` | Python/dbus-1.4.16/bus/activation.c:1408-1417 | the walk over the table that fails all activations with the same command, or of the same systemd unit |
| `ServiceActivation.BusActivation.ChildFailed` | Python/dbus-1.4.16/bus/activation.c:1408-1430 | a failed child fails the others with its command, then itself |
| `ServiceActivation.BusActivation.CancelTransaction` | Python/dbus-1.4.16/bus/connection.c:2147-2165 | all hooks run, newest first, before any of them is freed |
| `ActivationProofs.ActivateKeeps` | Python/dbus-1.4.16/bus/activation.c:1684-2152 | through every success and failure exit: reference counts equal table membership plus hooks, the count equals the waiting requests, and the limit is kept |
| `ActivationProofs.NestedKeeps` | Python/dbus-1.4.16/bus/activation.c:1984-2018 | so does the nested activation of systemd, which does not nest again |
| `ActivationProofs.DeliverKeeps` | Python/dbus-1.4.16/bus/activation.c:1167-1221 | so does delivering to a service that has come |
| `ActivationProofs.CancelKeeps` | Python/dbus-1.4.16/bus/activation.c:1031-1051 | cancelling keeps every count right although hooks change the table while references are still held |
| `ActivationRuns.FailExact` | Python/dbus-1.4.16/bus/activation.c:1275-1286 | failing one activation ends it, its table entry and its requests, and nothing else |
| `ActivationRuns.ChildFailsExactly` | Python/dbus-1.4.16/bus/activation.c:1408-1430 | after a failed child exactly the activations with its command are gone; every other is untouched |
| `ActivationRuns.SystemdFailsExactly` | Python/dbus-1.4.16/bus/activation.c:2198-2243 | after a failed unit exactly the activations that wait for it are gone |
| `ActivationRuns.StepEnds` | Python/dbus-1.4.16/bus/activation.c:1275-1430 | so a timeout ends that activation, a failed child those with its command, a failed unit those that wait for it, and each nothing else |
| `ActivationRuns.EveryRun` | Python/dbus-1.4.16/bus/activation.c:165-2243 | over every run of transactions, timeouts, failed children and failed units: no assertion on counts or references fails and no freed memory is used, the count is the number of waiting requests and within the limit, and every live activation is in the table with one reference |
| `ActivationErrors.ActivateErrors` | Python/dbus-1.4.16/bus/activation.c:2004-2014 | a request fails the assertion that an error is set if and only if it is new, on record, handed over to a connected systemd, and that is refused without an error |
| `ActivationErrors.RunErrors` | Python/dbus-1.4.16/bus/activation.c:2004-2014 | a run fails that assertion if and only if one of its requests does |
| `ActivationErrors.HandOffRefusedSilently` | Python/dbus-1.4.16/bus/bus.c:1612-1624 | handing over to systemd is refused without an error if and only if systemd's receive policy does not let the signal in |
| `ActivationErrors.FirstRequestFails` | Python/dbus-1.4.16/bus/activation.c:2004-2014 | the first request on a bus can fail it: a concrete run of one transaction |
| `ActivationRuns.RunLeavesGone` | Python/dbus-1.4.16/bus/activation.c:165-223 | an activation that has ended never comes back, and one that has not keeps its requests in order |
| `ActivationUndo.DeliveryUndone` | Python/dbus-1.4.16/bus/activation.c:1031-1092 | cancelling the transaction that delivered restores the activations exactly |
| `ActivationUndo.RequestCancelled` | Python/dbus-1.4.16/bus/activation.c:1489-1526 | with systemd or without: cancelling a request leaves the activations as they were if and only if it neither joined one nor made a nested request for systemd that is on record; a joined one is dropped for all who wait, and the nested request stays, exactly as if made alone, since its transaction was executed before |
| `ActivationUndo.SystemdIsLeftWaiting` | Python/dbus-1.4.16/bus/activation.c:1991-2018 | a concrete request, cancelled from the empty table, that leaves one for systemd behind |
| `ActivationMessages.TellWaiters` | Python/dbus-1.4.16/bus/activation.c:1115-1156 | the loop that answers those who wait, in place; what each is told, message by message, is said by the lemmas of AnswersSaid |
| `ActivationMessages.TrySendFailure` | Python/dbus-1.4.16/bus/activation.c:1229-1269 | one attempt to send the failure, in a transaction of its own, executed or cancelled |
| `ActivationMessages.KeepTryingToFail` | Python/dbus-1.4.16/bus/activation.c:1275-1286 | the loop over attempts, each of which can be ended whatever those before it met: all waiting are told once, or nothing changed |
| `ActivationMessages.DispatchHeldBack` | Python/dbus-1.4.16/bus/activation.c:1178-1206 | the loop that dispatches the messages that were held back for the service, and only those |
| `ActivationRepliesProofs.TellAnswers` | Python/dbus-1.4.16/bus/activation.c:1115-1156 | if memory lasts, each connection has exactly the answers due to it queued, in the order it asked |
| `ActivationRepliesProofs.FailureAnswersOnce` | Python/dbus-1.4.16/bus/activation.c:1275-1286 | however many attempts are cancelled first, each waiting connection still there gets exactly one error for each of its requests, and nothing before |
| `AnswersSaid.ComingSays` | Python/dbus-1.4.16/bus/activation.c:1115-1156 | when a service comes, with memory for everybody, the first that each connection is sent is one message for each of its requests by name, in order: a MethodReturn whose reply serial is that of the request, with the success code |
| `AnswersSaid.FailingSays` | Python/dbus-1.4.16/bus/activation.c:1229-1286 | when an activation fails, each connection is sent exactly one message for each of its requests: an Error whose reply serial is that of the request, with the given text |
| `AnswersSaid.RefusalSays` | Python/dbus-1.4.16/bus/dispatch.c:374-401 | a launch refused aloud is answered by exactly one such Error, unless the policy of who asked eats it |
| `AnswersSaid.RunningSays` | Python/dbus-1.4.16/bus/activation.c:1729-1768 | who asks by name for a service that runs is sent that code, and nothing else happens |
| `AnswersSaid.NameSays` | Python/dbus-1.4.16/bus/driver.c:557-640 | a request for a name that meets no failure adds a MethodReturn with its serial, in its own transaction |
| `ActivationRequests.LaunchDecides` | Python/dbus-1.4.16/bus/activation.c:1917-2146 | how a new request's launch fails, on its inputs: for lack of memory, by what systemd or its own activation meets, or by command, arguments or spawning; only wrong arguments take the request off the record, and otherwise it waits on when its transaction is executed |
| `ActivationRequests.JoinDecides` | Python/dbus-1.4.16/bus/activation.c:1789-1803 | a request that joins an activation waits behind those that wait already, is counted, and nothing else changes, unless memory fails |
| `ActivationRequests.SystemdWaits` | Python/dbus-1.4.16/bus/activation.c:1984-2018 | what a nested request leaves waiting for systemd: the signal that asks it, held back for it on behalf of the client |
| `ActivationRequests.AskBus` | Python/dbus-1.4.16/bus/dispatch.c:313-401 | the transaction of a message that asks for a service can always be ended, and is all or nothing |
| `ActivationRequests.RefusedLaunchTells` | Python/dbus-1.4.16/bus/dispatch.c:374-401 | a launch that is refused with an error, which gets out, adds exactly that error to the outbox of who asked, and the request stays on record unless its arguments were wrong |
| `ActivationRequests.AskKeeps` | Python/dbus-1.4.16/bus/activation.c:1684-2152 | whatever becomes of such a message, counts and references are right afterwards and nothing that was over is back |
| `Appearances.HeldBackDecides` | Python/dbus-1.4.16/bus/activation.c:1178-1206 | unless memory runs out, the held back messages before the first one that policies, queue, file descriptors or recorded calls refuse are dispatched, and dispatching fails as that one |
| `Appearances.AppearEnds` | Python/dbus-1.4.16/bus/services.c:450-596 | when a connection asks for a name, either its transaction is cancelled and nothing has happened; or it is executed, those who asked for the service are answered exactly if the name had no owner before, and the activation is over if and only if no held back message is refused; for a connection that is gone it is executed even if memory runs out, and those are answered that were told before |
| `Appearances.AmpleIsExecuted` | Python/dbus-1.4.16/bus/dispatch.c:353-401 | with memory for everything it is executed, refusals or not |
| `Appearances.AppearErrors` | Python/dbus-1.4.16/bus/driver.c:1997-2008 | the assertion that the failed handler has set its error fails if and only if it is executed and the first refused message is refused by the owner's receive policy |
| `Appearances.ToldTwice` | Python/dbus-1.4.16/bus/activation.c:1275-1286 | after an executed appearance that did not end the activation those who were told are told once more, of the failure, by a timeout |
| `HeldBackMessages.AutosForward` | Python/dbus-1.4.16/bus/activation.c:1178-1206 | the owner's queue gains exactly the held back messages that the loop gets past, in the order they came |
| `HeldBackMessages.AppearForwards` | Python/dbus-1.4.16/bus/activation.c:1178-1206 | and all of them are in the owner's outbox when the transaction is executed |
| `ActivationAnswers.AppearanceDecides` | Python/dbus-1.4.16/bus/services.c:255-596 | unless memory runs out, an executed request for a name tells all who asked by name if the name had no owner, nobody if it had, and sends on exactly the held back messages before the first refused one |
| `ActivationAnswers.DealtAtMost` | Python/dbus-1.4.16/bus/activation.c:1115-1286 | in every run of requests, names asked for, asked for again and released, failures and other turns of the bus, each request is answered at most once for its launch that failed, once for each time that its service came and did not end the activation, and once for good, which happens once and is the end; a held back message is sent on as often, but for launches |
| `ActivationAnswers.DealtExactly` | Python/dbus-1.4.16/bus/activation.c:1115-1286 | and exactly that often if what is sent reaches its connection |
| `ActivationAnswers.DealtOnceIff` | Python/dbus-1.4.16/bus/activation.c:1115-1286 | so a request that is answered for good is answered once if and only if it got no error of its launch and was not told of its service while a held back message was refused, or memory ran out for an owner that was gone; and a held back message is sent on at most once if and only if at most one executed request for the name got as far |
| `ActivationAnswers.DealsArrive` | Python/dbus-1.4.16/bus/connection.c:2205-2223 | in every run all that is counted is in the outbox of its connection, and no event takes back what was sent |
| `ActivationAnswers.DealsAreAboutIt` | Python/dbus-1.4.16/bus/activation.c:1115-1286 | whatever is sent about a request on record is an answer to that request, for the connection that made it, or the message held back for it |
| `ActivationInstances.LaunchErrorTwice` | Python/dbus-1.4.16/bus/dispatch.c:374-401 | a concrete run in which a client is told that its service cannot be spawned, and by the timeout once more that it failed |
| `ActivationInstances.ReallyToldTwice` | Python/dbus-1.4.16/bus/activation.c:1115-1286 | concrete runs, with an aloud and with a silent refusal, in which a client is told that its service came and then that it did not |
| `ActivationInstances.SentOnTwice` | Python/dbus-1.4.16/bus/services.c:592-596 | concrete runs in which the owner asks for its name again after a refusal: the activation is over, the client was answered once, and the message before the refused one is sent on twice |
| `ActivationInstances.SilentlyRefusedFails` | Python/dbus-1.4.16/bus/driver.c:1997-2008 | with the silent refusal the assertion that an error is set fails: a concrete appearance |
| `ServiceCache.FileCache.AddNewEntry` | Python/dbus-1.4.16/bus/activation.c:371-422 | a new file gets an entry in both tables unless its name is taken; a table without room keeps the reference made for it |
| `ServiceCache.FileCache.RefreshOldEntry` | Python/dbus-1.4.16/bus/activation.c:423-473 | a known file's entry leaves the names, is rewritten and comes back under its new name; on a clash it stays in its directory's table only |
| `ServiceCache.FileCache.CheckServiceFile` | Python/dbus-1.4.16/bus/activation.c:485-582 | a missing file leaves both tables; a newer one is read again |
| `ServiceCache.FileCache.Update` | Python/dbus-1.4.16/bus/activation.c:588-731 | a directory's listing in turn, up to the first lack of memory |
| `ServiceCache.FileCache.FindEntry` | Python/dbus-1.4.16/bus/activation.c:1528-1593 | a known name is checked, an unknown one is looked for in all directories |
| `ServiceCache.FileCache.Reload` | Python/dbus-1.4.16/bus/activation.c:796-889 | frees the table of names and those of all directories, entry by entry, then loads each directory of the configuration into a new table |
| `ServiceFilesProofs.RefreshKeeps` | Python/dbus-1.4.16/bus/activation.c:423-473 | through every exit of a refresh the two tables agree and no reference is missing |
| `ServiceFilesProofs.CheckKeeps` | Python/dbus-1.4.16/bus/activation.c:485-582 | a check finds the entry exactly if the file is there, brought up to date exactly if it is newer, readable and without a clash |
| `ServiceFilesProofs.FindIsSound` | Python/dbus-1.4.16/bus/activation.c:1528-1593 | a found entry's file exists; it is up to date exactly if the file is unchanged or could be read again without a clash; its name is the requested one unless this call read another from the file |
| `ServiceLookups.EachLearns` | Python/dbus-1.4.16/bus/activation.c:588-731 | which names are known after a scan, on what cache and files were before it: each file gives the name it says if it is new or newer than its entry, and takes the name of its entry if it is gone or renamed |
| `ServiceLookups.FindIff` | Python/dbus-1.4.16/bus/activation.c:1528-1593 | with memory for everything, a lookup of a known name fails if and only if the file of its own entry is gone; of any other name, if and only if every file that gives it is followed in the scan by one whose entry still has it from before a clash and which is gone or renamed |
| `ServiceLookups.FindIsComplete` | Python/dbus-1.4.16/bus/activation.c:1528-1593 | so, unless a clash left an entry under the name, a lookup of an unknown name finds it if and only if some listed file gives it |
| `ServiceLookups.ServiceIsLost` | Python/dbus-1.4.16/bus/activation.c:423-437 | a concrete clash and renaming after which a service is not found any more, although its file is there and unchanged |
| `ServiceReloads.FreeAllFrees` | Python/dbus-1.4.16/bus/activation.c:813-838 | a reload first leaves no table and uses no freed memory; unless a table ran out of room before, every entry there was is gone |
| `ServiceReloads.EveryRun` | Python/dbus-1.4.16/bus/activation.c:366-527 | in every state that reloads of distinct directories and lookups lead to, in any order: no freed memory is used, an entry found by name has that name and is in its directory's table; references match the tables unless a table ran out of room |
| `ReloadedServices.ReloadKnows` | Python/dbus-1.4.16/bus/activation.c:796-889 | with memory for everything a reload comes to its end, although directories or files cannot be read, and then exactly the names are known that the listed .service files give, each with the content and time of the first file that gives it |
| `ServiceFiles.ServiceFileIff` | Python/dbus-1.4.16/bus/activation.c:636-643 | the files that are read are those whose names end in .service |
| `ConfiguredServices.ConfiguredDirectories` | Python/dbus-1.4.16/bus/config-parser.c:233-277 | the directories of every configuration are distinct, so that a reload of them keeps all that |
| `ServiceFilesProofs.RepeatedDirectoryFails` | Python/dbus-1.4.16/bus/activation.c:866-872 | with a directory given twice the names lead to an entry whose directory is freed, and the next lookup uses it |
| `ServiceFileText.ServiceRoundTrip` | Python/dbus-1.4.16/bus/activation.c:305-362 | a service file that is written and read back says what was written, if it is not too large |
| `ServiceFileText.PlainSection` | Python/dbus-1.4.16/bus/desktop-file.c:395-578 | a section as people write it, without escapes, is read as written |
| `ServiceFileText.PlainServiceRead` | Python/dbus-1.4.16/bus/activation.c:305-362 | under the header [D-BUS Service] the keys Name, Exec, User and SystemdService are what a service file says, whatever their values |
| `ServiceFileText.PlainServiceSkipped` | Python/dbus-1.4.16/bus/activation.c:305-335 | under any other header, such as [D-Bus Service], they say nothing |
| `ServiceFileText.NoCommandSkipped` | Python/dbus-1.4.16/bus/activation.c:325-335 | and neither does a service without Exec |
| `DesktopFileParser.UnescapeString` | Python/dbus-1.4.16/bus/desktop-file.c:181-265 | the escapes of a value or name, through a buffer that is never written past its end |
| `DesktopFileParser.FindEol` | Python/dbus-1.4.16/dbus/dbus-string.c:1901-1960 | the first line feed, carriage return, or pair of both |
| `DesktopFileParser.IsBlankLine` | Python/dbus-1.4.16/bus/desktop-file.c:340-360 | white space up to a line feed, a NUL or the end |
| `DesktopFileParser.SectionObject.Push` | Python/dbus-1.4.16/bus/desktop-file.c:319-338 | a line is appended; the array doubles only when full, and is never used beyond its size |
| `DesktopFileParser.Parser.OpenSection` | Python/dbus-1.4.16/bus/desktop-file.c:267-317 | a section is appended after all others, which are unchanged |
| `DesktopFileParser.Parser.NewLine` | Python/dbus-1.4.16/bus/desktop-file.c:319-338 | a line is appended to the last section, the others are unchanged |
| `DesktopFileParser.Parser.ParseSectionStart` | Python/dbus-1.4.16/bus/desktop-file.c:395-450 | a header line; the position moves on |
| `DesktopFileParser.Parser.ParseKeyValue` | Python/dbus-1.4.16/bus/desktop-file.c:452-578 | a key and value line, or one with a locale, which is passed over; the position moves on |
| `DesktopFileParser.Parser.ParseAll` | Python/dbus-1.4.16/bus/desktop-file.c:673-698 | the whole text, every turn moving the position forward |
| `DesktopFileParser.LoadDesktopFile` | Python/dbus-1.4.16/bus/desktop-file.c:622-702 | the size limit, the encoding, then the text |
| `DesktopFileParser.GetRawValue` | Python/dbus-1.4.16/bus/desktop-file.c:705-770 | the first line of the key in the first section of the name |
| `DesktopFileProofs.UnescapeEscape` | Python/dbus-1.4.16/bus/desktop-file.c:181-265 | unescaping undoes escaping, for every string without a NUL |
| `DesktopFileProofs.UnescapeShrinks` | Python/dbus-1.4.16/bus/desktop-file.c:192-195 | an unescaped string is never longer, never empty if it was not, and has no NUL |
| `DesktopFileLines.UnescapesIff` | Python/dbus-1.4.16/bus/desktop-file.c:181-265 | a value or name is the one text that was written, character by character, a space, tab, line feed, carriage return or backslash perhaps as its escape; it is refused if and only if there is none |
| `DesktopFileProofs.ParseRender` | Python/dbus-1.4.16/bus/desktop-file.c:340-578 | every sequence of lines is read as meant, whatever its comments, blank lines, localised keys, spaces around the equals sign and line ends, if and only if no blank line is ended by a lone carriage return with something other than a blank line below |
| `DesktopFileProofs.BlankWithLoneReturn` | Python/dbus-1.4.16/bus/desktop-file.c:340-360 | a concrete file with such a line, which is refused |
| `DesktopFileLines.LineSaysIff` | Python/dbus-1.4.16/bus/desktop-file.c:340-578 | what every line says, in every text: the header, pair or nothing that it is, or which error it is refused with: a header not closed or empty, a key missing, or no equals sign (syntax); something else in front of the equals sign (characters); what cannot be unescaped (escapes) |
| `DesktopFileLines.LoadRefusedIff` | Python/dbus-1.4.16/bus/desktop-file.c:622-702 | every text is refused with an error if and only if it is too large, else not UTF-8, else a line is wrong or a pair before any header, and the error is that of the first such line, with its number |
| `DesktopFileLines.HasRows` | Python/dbus-1.4.16/dbus/dbus-string.c:1901-1960 | every text has such lines |
| `DesktopFileProofs.RoundTrip` | Python/dbus-1.4.16/bus/desktop-file.c:622-702 | parsing what was written gives the same sections, keys and values in the same order |
| `DesktopFileProofs.LoadWritten` | Python/dbus-1.4.16/bus/desktop-file.c:636-641 | loading a written file gives it back if and only if it is within the size limit |
| `DesktopFileProofs.ParsedIffWritable` | Python/dbus-1.4.16/bus/desktop-file.c:395-578 | a file is the result of parsing some text if and only if its section names are non-empty, its keys valid and nothing in it has a NUL |
| `DesktopFileProofs.GetRawFindsFirst` | Python/dbus-1.4.16/bus/desktop-file.c:705-770 | a value is found if and only if it is that of the first such key in the first such section |
| `ConnectionTable.BusConnections.AdjustForUser` | Python/dbus-1.4.16/bus/connection.c:131-170 | the count of a user moves by the adjustment and its entry goes at zero; only a new entry can lack memory |
| `ConnectionTable.BusConnections.ExpireIncomplete` | Python/dbus-1.4.16/bus/connection.c:783-838 | closes from the oldest on, stops at the first that may stay and sets the timer for it |
| `ConnectionTable.BusConnections.SetUpConnection` | Python/dbus-1.4.16/bus/connection.c:608-780 | a new connection goes to the end of the incomplete ones, in place; which connections are closed then is said by SetUpCloses |
| `ConnectionTable.BusConnections.CheckLimits` | Python/dbus-1.4.16/bus/connection.c:1438-1472 | below both limits, exactly |
| `ConnectionTable.BusConnections.CompleteConnection` | Python/dbus-1.4.16/bus/connection.c:1339-1421 | counts, then moves between the lists; without log info the count stays |
| `ConnectionTable.BusConnections.HandleHello` | Python/dbus-1.4.16/bus/driver.c:243-300 | limits are checked, then the connection completes |
| `ConnectionTable.BusConnections.Disconnected` | Python/dbus-1.4.16/bus/connection.c:259-285 | leaves the list it is in and, if completed, the count of its user |
| `ConnectionListsProofs.ExpireKeeps` | Python/dbus-1.4.16/bus/connection.c:783-838 | in every reachable state stopping early closes what a scan of all would close, and sets the timer for the one with the least time left |
| `ConnectionListsProofs.StopsEarlyRightly` | Python/dbus-1.4.16/bus/connection.c:814-829 | whatever the clock did, stopping early closes what a full scan closes if and only if no connection that is due comes after one that may stay |
| `ConnectionListsProofs.HelloKeeps` | Python/dbus-1.4.16/bus/connection.c:1339-1472 | check, then complete, keeps both limits, the lists, the counters and the counts, at every failure too |
| `ConnectionOutcomes.SetUpCloses` | Python/dbus-1.4.16/bus/connection.c:608-780 | when a connection comes, unless memory fails, exactly those are closed afterwards that were before, that have been incomplete for the timeout, and the oldest incomplete one if there are more than the maximum |
| `ConnectionOutcomes.TooManyIff` | Python/dbus-1.4.16/bus/connection.c:718-732 | then more than the maximum are incomplete and open if and only if more than that stay and the oldest of the list was closed before |
| `ConnectionOutcomes.NeverTooMany` | Python/dbus-1.4.16/bus/connection.c:718-732 | in every run in which closed connections go before another comes, at most the maximum are incomplete and open |
| `ConnectionOutcomes.ClosedTwice` | Python/dbus-1.4.16/bus/connection.c:718-732 | a concrete run in which one more than the maximum is open: the oldest is closed a second time |
| `ConnectionOutcomes.HelloDecides` | Python/dbus-1.4.16/bus/driver.c:243-300 | a hello succeeds if and only if the connection has no name, both counts are below their limits and memory lasts; otherwise nothing changes, but for the count when log info fails |
| `ConnectionOutcomes.GoneLeaves` | Python/dbus-1.4.16/bus/connection.c:259-285 | a connection that goes leaves its list, the data and, if it was completed, the count of its user, and no other |
| `ConnectionOutcomes.StepDoes` | Python/dbus-1.4.16/bus/connection.c:228-838 | what each event of a run does to lists and data; the timer closes exactly those that have been incomplete for the timeout |
| `ConnectionListsProofs.EveryRun` | Python/dbus-1.4.16/bus/connection.c:131-285 | over every run with a clock that does not go back: counters are list lengths, a connection is completed exactly if it has a name, no limit is exceeded, and a user's count is its completed connections plus its hellos that failed for lack of log info |
| `Vigenere.Run` | Javascript/vigenere.js:2-57 | the whole function: key normalisation, tag mode and rolling key index |
| `Vigenere.IndexOfIsFirst` | Javascript/vigenere.js:5-6 | the first place of a character in an alphabet that has the digits twice |
| `Vigenere.IndexInAlphabet` | Javascript/vigenere.js:5-6 | the same for the alphabet written out: upper case, digits, lower case, digits |
| `Vigenere.ShiftMoves` | Javascript/vigenere.js:38-54 | a character moves by the place of the key letter, on or back, modulo 36 in its half of that alphabet, digits in the first |
| `Vigenere.InTagIff` | Javascript/vigenere.js:29-37 | a position is in a tag if and only if there is an opening bracket before it with no closing one since |
| `Vigenere.NormalisedIs` | Javascript/vigenere.js:7-17 | of a key exactly the characters of the alphabet are left, in order |
| `Vigenere.ThereAndBack` | Javascript/vigenere.js:26-57 | for every text, key and direction: decoding gives the text back up to case, and exactly so if and only if no lower case letter lands on a digit |
| `Vigenere.UpperTextComesBack` | Javascript/vigenere.js:43-52 | a text without lower case letters always comes back exactly |
| `Vigenere.CaseIsLost` | Javascript/vigenere.js:43-52 | a concrete letter that comes back in upper case |
| `Vigenere.EncipheredBy` | Javascript/vigenere.js:38-54 | each enciphered character moves by the key letter at the number of characters enciphered before it, modulo the length of the key |
| `Vigenere.OthersUntouched` | Javascript/vigenere.js:29-41 | tags and foreign characters are unchanged |
| `Vigenere.EmptyKeyIsIdentity` | Javascript/vigenere.js:18-24 | a key without letters and digits changes nothing |
| `Vigenere.NormaliseKey` | Javascript/vigenere.js:7-17 | the key without foreign characters, in order |

## Left out

- BusConfigParser.Parser.Handle: does not model running out of memory, nor the attribute combinations of a policy rule; an oracle says what rule the attributes of an element make, because the source calls its own check of them broken (config-parser.c:1223).
- BusConfigParser.Parser.IncludeFile: compares paths as strings, as the code does, and takes path arithmetic, user lookup and SELinux from an environment that is an input.
- ServiceCache.FileCache.Reload: does not model memory failing for the tables themselves; for a directory's table that is like a reload that ends before it, for the table of names it would leave the cache without one.
- ServiceCache.FileCache.FindEntry: sees one state of the file system during a call; a file that changes between the stat and the reading is not modelled.
- DesktopFileParser.LoadDesktopFile: does not model running out of memory, and takes the reading of the file and the check of its encoding as inputs.
- PendingReplyTable.ReplyTable.ExpireReplies: stops after a number of errors that is an input, which stands for the memory there is; the driver's sending of the error is an ending of the pending reply, and the interval of the timer is not modelled.
- MessageBus.Context.DispatchMessage: starts where the recipient is known; name lookup, messages to the driver itself and the auto-start decision of dispatch.c come before, and the preallocated out-of-memory message is not modelled.
- ServiceActivation.BusActivation.ActivateService: takes the service file, the registry and the start of the child as inputs; environment, child watching and the text of errors are not modelled.
- ConnectionTable.BusConnections.SetUpConnection: a closed connection stays listed until it is dispatched, as in the source; watches, timeouts and SELinux are one input that says whether they fail.
- ConnectionTable.BusConnections.Disconnected: the dropping of service ownership and of match rules is not modelled; that of queued messages and pending replies is with transactions and pending replies.
- Vigenere.Run: takes the key as toUpperCase gives it, since case mapping beyond ASCII is the browser's; a missing key is the empty one, and the alert is left out.
- ActivationAnswers.DealtOnceIff: in its runs a failed child or unit is one failure after another, each activation at a time, and memory suffices for the errors in the end, for which the source waits; a message that runs out of memory is undone, and the preallocated error for it is not counted.
- ActivationRequests.AskBus: does not send the signal for systemd, whose way is an input of the launch.
- Appearances.AppearEnds: takes as inputs who is the primary owner afterwards and whether memory lasts for the signals about it; the queue of owners behind the primary one (services.c) and requests for a name that are refused before they reach it are not modelled.
- ConfigMeaning.FileMeans: is about files without includes, and so is ConfigAcceptance.FileLoadsIff; what an include adds is said by ConfigInlining.IncludingIsInlining.
- ReloadedServices.ReloadKnows: has memory for everything, and listings that name each file once.
- ServiceLookups.FindIff: has memory for everything, and a listing that names each file once.
- Matching of listeners, client policies, the queues of name owners (services.c) and match rules: their answers are inputs.
- Objects reached by address: cells of an arena stand for them, so aliasing is by index; in-place change is that of the classes' fields.
- Sockets, watches, forking, logging, the setuid helper, directory watching, and the test code of each file.
- The files named with "(1)", which are copies, and the rest of the repository: scripts for mail, HTTP, pages and word scores, which hold input and output or easy code.
