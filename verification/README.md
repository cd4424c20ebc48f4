# A verified model of the message bus daemon

This project models the transactional core of the D-Bus message bus daemon in Dafny: what dispatching a
message does to the name registry, to the messages waiting in transactions, to the licences for replies, to
the security policy and to pending service activations, and how all of it is executed as a whole or
cancelled. Around that core it models the parts of the daemon with an algorithm of their own: the expire list
and its timer, connections before and after Hello, included configuration files, and the service-file parser.

Every component comes in two layers. A module of values and functions says what an operation does, and its
lemmas speak about whole runs: any sequence of steps, any interleaving of transactions, memory running out
at any point. Beside it a module whose name ends in `Object` holds the imperative form, classes and loops
that update lists, tables and counters in place as the C code does; each method is tied to the function it
implements, so the run theorems are about it too.

| component | modules |
|---|---|
| shared names, facts about lists | `BusTypes`, `ListFacts` |
| names: Hello, owner queues, RequestName, ReleaseName, ownership signals | `UniqueNames`, `OwnerQueues`, `NameRegistry`, `RegistryRuns`, `OwnerIndex`, `OwnerUndo`, `RegistryObject` |
| transactions: hooks and buffered messages | `Transactions`, `Outbox`, `OutboxObject` |
| expire list and timer | `ExpireLists`, `ExpireTimers` |
| pending replies | `PendingReplies`, `ReplyRuns`, `ReplyObject` |
| policy: decisions, optimiser, layers | `Policy`, `PolicyOptimizer`, `PolicyLayers` |
| security check and dispatch | `Dispatch`, `Routing`, `DispatchObject` |
| pending activations and their answers | `Activations`, `ActivationAnswers`, `ActivationObject` |
| RequestName across registry, activation and licences | `RequestNames`, `RequestObject` |
| cancelling across all of these, and disconnecting | `TransactionCore`, `CancelObject`, `Departure` |
| connection lists, per-user counts, authentication timeouts | `Connections`, `ConnectionsObject` |
| included configuration files | `ConfigIncludes`, `ConfigCycles`, `ConfigMissing`, `ConfigObject` |
| service files | `DesktopFiles`, `DesktopFileObject` |

Modelling choices:

- A connection is an identity (`Conn`), as the daemon only ever compares pointers. Linked lists are sequences
  and hash tables are maps. Times are `struct timeval` pairs and elapsed milliseconds are reals, as the source
  computes them in `double`. The name counters wrap like a 32-bit `int`.
- A transaction is a value of hooks, newest first, with the messages it put into connections. Running out of
  memory may end a dispatch after any step; what follows is the cancel function of the source.
- Verdicts of code outside the model are parameters: SELinux decisions, the syntax of bus names, the match
  rules that select recipients, message sizes, file contents and the clock.

Where a property one would expect is false of the code, the model follows the code and proves when the
property holds:

- Cancelling does not take back every step of a dispatch. A request that joined an activation already under way
  takes the whole record with everybody else's requests off the table (bus/activation.c:1376-1389, 1793). A
  connection that was completed, or whose user was charged for it, stays so (bus/driver.c:297-325). An owner that
  is displaced is put back without a reference, and moving or removing an owner further back in the queue records no
  hook at all (bus/services.c:1052-1071, 1095-1160). `CancelRestoresBus` proves that the bus is as it was if and only
  if no step was of one of these three kinds; `CancelledJoinForgets` is a run with the first.
- `EditUndoneIff` says for every change of owners, also for a request that had not displaced the old owner yet,
  exactly when its hooks undo it, by the queue and the flags of the request. `SwappedTwice`: after a cancelled change
  of places the queue holds the same owner twice. (With assertions compiled in, bus/services.c:1112 stops the daemon
  there.)
- A Hello whose transaction is cancelled after the connection was completed leaves the connection with a name
  that is not registered (bus/driver.c:297-325). `OwnsItsNameIff`: in every run a registered connection owns its
  unique name if and only if its Hello was not cancelled so; `CancelledHelloStrands` is a run of two steps.
- Not every request to start a service is answered exactly once. `AnsweredOnceIff` proves that it is, at every
  point of a run, if and only if no step of three kinds occurs: the program could not be started (its requests
  stay in the table and are answered again), a request that had joined others is cancelled, or a waiting message
  is refused after others of the same record were answered (bus/activation.c:1100-1130, 1376-1389, 1853-1895).
  `AnsweredTwice` is a run of the third kind.
- A RequestName may reply with an error and yet have changed the owner: when a message that waited for the service
  is refused, the change made before stays (bus/services.c:765-769). `ErrorLeavesAloneIff` gives the exact
  condition, `ErrorReplyAndOwner` a request of this kind in a state that a run of the daemon reaches.
- A refused message is normally answered by an error. `DeliveredOrAnswered` proves that its recipient gets the
  message or its sender an error, never both, and exactly when neither hears anything: the sender's own policy may
  refuse the error as well (bus/connection.c:2034-2039), as in `RefusedInSilence`; and to a sender that is gone
  nothing is said, in which case running out of memory does not cancel anything (bus/dispatch.c:315-323).
- The comment in bus/policy.c:782-794 says that rules before a catch-all never matter. They do for replies,
  because a catch-all with the default requested_reply attribute does not apply to requested replies, and for
  messages that are not eavesdropped, to which a deny with eavesdrop="true" does not apply. `VerdictKeptIff` gives
  the exact condition; `RequestedReplyRefusedAfterOptimize` and `AddressedRefusedAfterOptimize` are messages whose
  decision changes.
- Running out of memory for the log information of a connection leaves its user charged for it
  (bus/connection.c:1396-1433). `CountIsNumberIff`: the count of a user is the number of its connections if and
  only if that never happened to the user; in `ChargedForever` a user without any connection is at the limit.
- An `<include ignore_missing="yes">` of a file that is there is dropped as a whole when the missing file is one
  further down (bus/config-parser.c:2074-2084). `DroppedIffLeadsToMissing`: if and only if a chain of includes
  that do not ignore it leads to a missing file or directory before anything else fails; `ListenIsLost` is a
  configuration that loses an address to listen on.
- The check of section names in service files accepts every name, since each character is greater than or
  equal to 'a' or less than or equal to 'z' (bus/desktop-file.c:383). `EveryNameIsAccepted` proves it;
  the header of `BracketInHeader` does not follow the rule in the comment.

## Model

| member | source | states |
|---|---|---|
| UniqueNames.UniqueNameInjective | bus/driver.c:218-230 | different counter pairs print different unique names |
| UniqueNames.IssueMovesForward | bus/driver.c:185-243 | issuing a name moves the counter pair strictly forward in lexicographic order, also when the minor number wraps around |
| UniqueNames.NextNameIsFresh | bus/driver.c:185-243 | the next name differs from every name issued before, and counts as issued afterwards |
| UniqueNames.NamesNeverRepeat | bus/driver.c:185-243 | a run of any length hands out pairwise different names, none of them issued before |
| OwnerQueues.WithoutFacts | bus/services.c:893-914 | unlinking an owner takes exactly that connection out of the queue |
| OwnerIndex.WithoutAt | bus/services.c:171-190 | and leaves everybody before and behind it in place |
| OwnerQueues.PutOwnerFacts | bus/services.c:997-1083 | adding an owner gives a queue with distinct connections in which the others keep their order; the primary owner stays, a replacing owner stands second, any other new owner last, and one already queued keeps its place |
| OwnerQueues.RequestFacts | bus/services.c:661-763 | for every queue and flags: RequestName leaves a well-formed queue, its reply code is the caller's real final position, and nobody else moves except a displaced primary owner |
| NameRegistry.ChangeSeen | bus/driver.c:47-183 | the signals of one change of primary owner, replayed on what was known before, give the new owner, and their old owner is the one known |
| NameRegistry.SetQueueKeepsInv | bus/services.c:661-763 | replacing the queue of one name keeps queues, back-index, unique names and the signal history in agreement |
| RegistryRuns.RequestKeepsInv | bus/services.c:532-770 | a committed RequestName keeps that agreement |
| RegistryRuns.ReleaseKeepsInv | bus/services.c:780-862 | a committed ReleaseName keeps it |
| RegistryRuns.HelloKeepsInv | bus/driver.c:245-325 | a completed Hello keeps it, cancelled afterwards or not |
| RegistryRuns.OwnsItsNameIff | bus/driver.c:245-325 | in every run a registered connection is the only owner of its unique name if and only if its Hello was not cancelled after it was completed |
| RegistryRuns.CancelledHelloStrands | bus/driver.c:297-325 | a run of two steps after which a registered connection does not own its name |
| RegistryRuns.UniqueNameDroppedLast | bus/connection.c:196-232 | a disconnecting connection loses its unique name last |
| RegistryRuns.DisconnectFacts | bus/connection.c:170-293 | after a disconnect the connection is in no queue, all other owners keep their order, and its unique name is announced as gone last |
| RegistryRuns.RunKeepsInv | bus/services.c:532-862 | every run of connect, Hello, RequestName, ReleaseName and disconnect keeps the agreement |
| RegistryRuns.SignalsTellOwnership | bus/services.c:1214-1380 | in every run, replaying NameOwnerChanged gives the primary owner of every name, each old owner matching, and replaying NameAcquired and NameLost gives each connection the names it is primary owner of |
| RegistryRuns.BackIndexAgrees | bus/connection.c:1296-1339 | in every run a name is in a connection's list exactly once if and only if the connection is in the name's queue, and the counter is the length of the list |
| RegistryRuns.QueuesStayWellFormed | bus/services.c:683-763 | in every run every registered queue is non-empty, lists no connection twice, only registered ones, and keeps nobody waiting who asked not to queue |
| RegistryRuns.UniqueNamesStayPut | bus/services.c:582-593 | in every run a unique name has one owner, the connection Hello gave it to, no two connections share one, and the first name Hello tries is free |
| OwnerIndex.SettleRequest | bus/services.c:203-255 | adding the new owner, then removing or swapping the old one, then freeing the hooks leaves the reference counts and the back-index exactly as the new queue requires |
| OwnerIndex.SettleWithdraw | bus/services.c:1292-1380 | the same for an owner that leaves |
| OwnerIndex.RequestUnchangedIff | bus/services.c:661-763 | a request leaves the queue as it is if and only if the caller is the primary owner with the same flags, or replaces nobody and either does not want to queue and is not queued, or is queued in its place with the same flags |
| OwnerUndo.AddedIsUndone | bus/services.c:941-994 | adding an owner, running its cancel hook and freeing it restores services, back-index and reference counts |
| RegistryObject.Registry.UnrefOwner | bus/services.c:243-255 | the last reference to an owner takes the name off the connection's list |
| RegistryObject.Registry.AddOwner | bus/services.c:997-1083 | the new queue, index, hooks and signals of bus_service_add_owner |
| RegistryObject.Registry.SwapOwner | bus/services.c:1214-1289 | the same for bus_service_swap_owner |
| RegistryObject.Registry.RemoveOwner | bus/services.c:1292-1380 | the same for bus_service_remove_owner, wherever the owner stands in the queue |
| RegistryObject.Registry.Ensure | bus/services.c:257-332 | a new service with its owner, hook and signals |
| RegistryObject.Registry.ReplacePrimary | bus/services.c:719-763 | displacing the primary owner gives the queue of the RequestName function and settles index and signals |
| RegistryObject.Registry.EditQueue | bus/services.c:661-763 | all branches of an allowed request compute the queue and the reply of the RequestName function; the reference counts, the back-index and the hooks of the open transaction are those whose cancelling OwnerUndo is about |
| OwnerUndo.RequestUndoneIff | bus/services.c:1085-1212 | a RequestName cancelled after it was carried out leaves queues, back-index and reference counts as they were if and only if the caller was not queued and displaced nobody, or had what it asked for |
| OwnerUndo.PartUndoneIff | bus/services.c:719-763 | the same for a request cancelled when the new owner was added and the old one not displaced yet: if and only if the new owner was not queued or stays in its place |
| OwnerUndo.EditUndoneIff | bus/services.c:941-1212 | one statement for every change of owners, however far it got, that a cancelled transaction can hold |
| OwnerUndo.SwappedTwice | bus/services.c:1274-1286 | cancelling a change of places leaves the old primary owner in the queue twice |
| OwnerUndo.ReleaseUndoneIff | bus/services.c:1292-1380 | a cancelled ReleaseName leaves everything as it was if and only if the caller was not in the queue |
| RegistryObject.Registry.ChangeOwners | bus/services.c:532-763 | every refusal leaves everything alone, in the order the source checks; otherwise queue, signals, index and hooks are those of the request |
| RegistryObject.Registry.ReleaseService | bus/services.c:780-862 | the release reply and what it says of the queue; the queue without the caller, and the index and hooks of the open transaction; a refusal changes nothing |
| RegistryObject.Registry.RestoreOwnershipHook | bus/services.c:1095-1140 | the cancel function of a displaced owner puts it before the owner it stood before, or last if that one is gone, and lists the name without a reference |
| RegistryObject.Registry.ReleaseName | bus/services.c:780-862 | a dispatched release is the ReleaseName step |
| RegistryObject.Registry.CreateUniqueName | bus/driver.c:185-243 | the loop ends with a free name, on its first try whenever that name is free, or stops when the numbers run out |
| RegistryObject.Registry.Hello | bus/driver.c:245-325 | Hello is the Hello step for each of its ends: over the limits, not completed, cancelled or registered; a name is used up even if the connection is not completed |
| RegistryObject.Registry.Disconnect | bus/connection.c:196-232 | giving up the names one transaction at a time ends, with the number of names as measure, and is the disconnect step |
| Outbox.CancelForgets | bus/connection.c:2132-2178 | cancelling delivers nothing and removes exactly the messages of this transaction; all others stay in place and in order |
| Outbox.ExecuteDelivers | bus/connection.c:2180-2236 | executing hands every connection exactly the messages of this transaction, in the order they were added, and leaves the others in place |
| Outbox.ApplyKeepsListed | bus/connection.c:2044-2130 | every operation keeps a connection in a transaction's list exactly once if and only if it holds one of its messages |
| Outbox.EveryRunMatches | bus/connection.c:2044-2256 | any interleaving of transactions, closes and disconnects delivers what one log per transaction, delivered or forgotten as a whole, delivers |
| OutboxObject.SendOldestFirst | bus/connection.c:2180-2216 | walking the list from its end sends the oldest message first and leaves the others |
| OutboxObject.Forget | bus/connection.c:2132-2158 | walking the list from its start unlinks exactly the messages of the transaction |
| OutboxObject.UnlistAll | bus/connection.c:2238-2256 | a leaving connection is taken out of every transaction it has a message of |
| OutboxObject.MessageQueues.Send | bus/connection.c:2044-2130 | the new state of bus_transaction_send |
| OutboxObject.MessageQueues.Execute | bus/connection.c:2218-2236 | the new state of executing a transaction |
| OutboxObject.MessageQueues.Cancel | bus/connection.c:2160-2178 | the new state of cancelling one |
| OutboxObject.MessageQueues.Disconnect | bus/connection.c:2238-2256 | the new state when a connection leaves |
| ExpireLists.DoExpiration | bus/expirelist.c:135-193 | exactly the items due before the first failed callback go; the result is -1 if and only if nothing is left, 500 after a failure, and otherwise the smallest remaining wait, capped at one hour |
| ExpireTimers.ApplyArmed | bus/expirelist.c:195-271 | adding, re-adding, removing, rechecking and expiring keep the timer armed in time for every item |
| ExpireTimers.TimerNeverLate | bus/expirelist.c:104-133 | in every run with a clock that does not go back the timer is enabled whenever there are items and is due no later than the earliest deadline, up to the pause after running out of memory |
| ExpireTimers.ExpireList.SetTimer | bus/expirelist.c:104-125 | the timer after bus_expire_timeout_set_interval |
| ExpireTimers.ExpireList.Add | bus/expirelist.c:248-271 | the item goes first and an idle timer is started |
| ExpireTimers.ExpireList.Remove | bus/expirelist.c:234-240 | the first link of the item goes, and whether there was one |
| ExpireTimers.ExpireList.Fire | bus/expirelist.c:195-225 | a timer pass leaves what the expiration leaves and re-arms the timer with its result |
| PendingReplies.DoTable | bus/connection.c:1678-1901 | expecting adds at most one licence under a new identity, checking takes away at most the one it found, and each records the hook that takes it back |
| PendingReplies.UndoAllRestores | bus/connection.c:1646-1673 | for every sequence of expect and check operations, also on licences recorded in the same transaction, running the hooks in reverse order finds each record it needs and restores the licences |
| PendingReplies.CancelRestores | bus/connection.c:1797-1807 | so a cancelled transaction leaves the same multiset of pending replies |
| PendingReplies.ExecuteKeeps | bus/connection.c:1678-1901 | an executed one keeps exactly the licences that were there or were added, and were not consumed |
| ReplyRuns.EveryExpectationHasOneFate | bus/connection.c:1541-1637 | in every run each recorded expectation is outstanding or has ended once: consumed, expired, dropped with its caller or cancelled; none ends unrecorded |
| ReplyRuns.LimitsHold | bus/connection.c:1696-1745 | in every run nobody waits for more replies than the limit, and no two licences with a live replier are for the same reply, after cancelled transactions too |
| ReplyRuns.DropConnFacts | bus/connection.c:1581-1637 | after a connection is dropped it neither waits for nor owes a reply, and nobody else's number of pending replies changes |
| ReplyObject.Scan | bus/connection.c:1696-1745 | one pass finds the first matching licence and otherwise counts the caller's licences |
| ReplyObject.DropInPlace | bus/connection.c:1581-1637 | the walk drops what the connection waits for, orphans what it owes, and asks for a recheck if and only if it owed something |
| ReplyObject.ReplyKeeper.ExpectReply | bus/connection.c:1678-1789 | the answer and the new licences and hooks |
| ReplyObject.ReplyKeeper.CheckReply | bus/connection.c:1834-1901 | a reply passes if and only if it was licensed, and the licence is used up |
| ReplyObject.ReplyKeeper.CancelAll | bus/connection.c:1968-1975 | running the hooks one by one undoes them all |
| ReplyObject.ReplyKeeper.DropPendingReplies | bus/connection.c:1581-1637 | the list afterwards, and a timer that fires at once if something was owed |
| Policy.CheckCanSend | bus/policy.c:869-1045 | the decision, the number of matching rules and the log flag are those of the last send rule that applies |
| Policy.CheckCanReceive | bus/policy.c:1050-1245 | the decision and the number of matching rules are those of the last receive rule that applies |
| Policy.CheckCanOwn | bus/policy.c:1247-1286 | the decision is that of the last own rule that applies |
| PolicyOptimizer.ClientPolicy.Optimize | bus/policy.c:777-852 | deleting in place leaves the optimised list |
| PolicyOptimizer.OptimizedKeepsTail | bus/policy.c:754-852 | for each rule type the optimised list holds exactly the rules from the last catch-all of that type on |
| PolicyOptimizer.VerdictKeptIff | bus/policy.c:777-852 | a decision is unchanged if and only if some rule from the last catch-all on applies, or the deleted rules did not allow anything |
| PolicyOptimizer.KeptWhenCatchAllApplies | bus/policy.c:777-852 | the deciding rule is the same whenever the last catch-all applies or there is none |
| PolicyOptimizer.OwnKept | bus/policy.c:833-836 | decisions about owning a name never change |
| PolicyOptimizer.SendKept | bus/policy.c:815-823 | decisions about sending, and the log flag, never change for a message that is not a reply |
| PolicyOptimizer.ReceiveKept | bus/policy.c:824-832 | decisions about receiving a message that is not a reply do not change unless the last catch-all is kept from applying by its eavesdrop attribute |
| PolicyOptimizer.RequestedReplyRefusedAfterOptimize | bus/policy.c:777-852 | two rules and a requested reply that is allowed before and refused after optimising |
| PolicyOptimizer.AddressedRefusedAfterOptimize | bus/policy.c:777-852 | two rules and a message to the client itself that is allowed before and refused after optimising |
| PolicyLayers.CreateClientPolicy | bus/policy.c:269-373 | a client gets the optimised rules of all layers that concern it, or none if groups or console cannot be determined |
| PolicyLayers.OwnByPrecedence | bus/policy.c:269-373 | whether a client may own a name is decided by the mandatory rules, then those about its user, then its groups, then the defaults |
| Dispatch.DeliveredWasAllowed | bus/bus.c:1157-1500 | every copy of a message that is sent passed the policy of its sender and of its recipient, and used a licence only as a reply to its addressed recipient |
| Dispatch.CheckBalance | bus/bus.c:1266-1284 | a check never lets requested replies and licences for one call grow by more than the call it lets through |
| Dispatch.CancelledLeavesLicences | bus/dispatch.c:315-360 | a message cancelled after any number of recipients delivers nothing and leaves every licence as it was |
| Dispatch.RequestedRepliesHaveCalls | bus/bus.c:1481-1496 | in every run, under any and changing policies, the requested replies to a call plus the replies still allowed never exceed the calls delivered; messages forwarded to a service that was started are steps of such runs by ActivationAnswers.ForwardIsSteps |
| Dispatch.RepliesHaveCalls | bus/bus.c:1266-1284 | if no rule allows unrequested replies, every reply delivered is requested, goes to the caller, and there are no more of them than calls |
| Routing.DecideIsCheck | bus/bus.c:1157-1500 | between registered connections the full check is the check of the run theorems |
| Routing.DriverKeepsLicences | bus/bus.c:1263-1330 | what the driver sends or receives, and what an unregistered connection sends, never touches a licence |
| Routing.UnregisteredParties | bus/bus.c:1287-1372 | whatever the policies say, an unregistered connection gets nothing through but Hello to the driver, and gets everything from the driver that its queue can hold |
| Routing.DeliveredOrAnswered | bus/dispatch.c:129-367 | a message to an owned name reaches its recipient or is answered by an error, never both; nobody gets a copy of what the recipient does not get; a cancelled one delivers nothing; and exactly when neither side hears anything |
| Routing.RefusedInSilence | bus/connection.c:2034-2039 | a refused call whose sender hears nothing |
| Routing.DispatchIsStep | bus/dispatch.c:129-367 | whichever way a message takes, what it does to licences and deliveries is one step of the run theorems or nothing |
| DispatchObject.CheckSecurityPolicy | bus/bus.c:1157-1500 | for every pair of parties, the driver and unregistered connections among them, the sequence of checks gives the error, the requested flag and the licences of the specification |
| DispatchObject.CheckAndSend | bus/dispatch.c:38-64 | a message is queued if and only if the check has no objection, which is reported |
| DispatchObject.DispatchMatches | bus/dispatch.c:66-126 | every recipient is tried in order and refused ones are left out |
| DispatchObject.TryMessage | bus/dispatch.c:129-313 | all ways through the first part: not handled, disconnected, driver, unregistered, activation, no owner, delivery |
| DispatchObject.SendErrorReply | bus/connection.c:2258-2290 | the reply is sent if and only if the check of messages from the driver passes, and no licence is touched |
| DispatchObject.DispatchMessage | bus/dispatch.c:129-367 | deliveries, error reply, cancelling and licences are those of the specification |
| Activations.ApplyAccounted | bus/activation.c:160-217 | joining, creating, finishing, failing, running a cancel hook and freeing one keep the count and all reference counts exact |
| Activations.CountIsExact | bus/activation.c:1598-1801 | in every run from the start the number of waiting requests is the sum over all live records, in the table or held by a hook, and within the limit, and every reference count is exact |
| Activations.CancelRestoresFinished | bus/activation.c:949-1010 | a cancelled transaction in which the service appeared puts its record back exactly |
| Activations.CancelRestoresCreated | bus/activation.c:1376-1413 | a cancelled first request leaves nothing behind |
| Activations.CancelRestoresTableIff | bus/activation.c:1376-1413 | cancelling a request restores the table if and only if the request was the first for its service |
| Activations.CancelledJoinForgets | bus/activation.c:1376-1389 | a run in which a cancelled request takes an earlier one, already committed, out of the table |
| ActivationAnswers.ForwardFacts | bus/activation.c:1081-1144 | forwarding sends the waiting messages in order up to the first refused one; without a refusal it sends all that can be delivered |
| ActivationAnswers.ForwardIsSteps | bus/activation.c:1081-1144 | what forwarding does to licences and deliveries is a sequence of steps of the dispatch runs, with one delivery to the owner for every message sent |
| ActivationAnswers.ApplyClean | bus/activation.c:1012-1213 | every step but those of three kinds keeps each request waiting in one place or answered once, never both |
| ActivationAnswers.SpoiledNotTidy | bus/activation.c:1571-1917 | after a step of one of these kinds some request is answered twice, waits although answered, or is lost |
| ActivationAnswers.AnsweredOnceIff | bus/activation.c:1012-1213 | in every run, every request of a connection that is still there is at every point waiting or answered exactly once, if and only if no step is of these kinds |
| ActivationAnswers.AnsweredTwice | bus/activation.c:1100-1130 | a run in which a request is answered twice |
| ActivationObject.ActivationKeeper.UnrefPending | bus/activation.c:160-217 | the last reference frees the record and takes its requests off the count |
| ActivationObject.ActivationKeeper.ActivateService | bus/activation.c:1571-1917 | when a request is refused, already satisfied or waits; the record and hook; that a program is started if and only if nobody waits for it yet; and what is left when it cannot be started |
| ActivationObject.ActivationKeeper.ServiceCreated | bus/activation.c:1012-1079 | exactly the explicit requests of connected clients are answered, in order |
| ActivationObject.ActivationKeeper.SendPendingAutoActivationMessages | bus/activation.c:1081-1144 | the messages sent, with their licences, are those before the first refused one; without a refusal the record leaves the table, with one it stays |
| ActivationObject.ActivationKeeper.PendingActivationFailed | bus/activation.c:1152-1209 | every waiting request of a connected client is told the error, and the record leaves the table |
| RequestNames.RequestKeepsDaemon | bus/services.c:532-770 | RequestName, with its part of the activation, keeps the registry in agreement and the active names those registered |
| RequestNames.ErrorLeavesAloneIff | bus/services.c:532-770 | the reply is an error if and only if a check refuses or a waiting message is refused; the registry is then unchanged if and only if a check refused or the caller had what it asked for, and no signal is sent if and only if a check refused or the caller was the primary owner or replaces nobody |
| RequestNames.ErrorReplyAndOwner | bus/services.c:765-769 | after four steps of the registry and one waiting message, a request whose caller may own the name is answered by an error and the caller is the primary owner afterwards |
| RequestObject.AnswerWaiting | bus/activation.c:1012-1144 | the replies to those who asked for the service, the messages that waited for it and their licences |
| RequestObject.AcquireService | bus/services.c:532-770 | the checks, the change of owners, the replies and the forwarded messages; what was done stays done if forwarding fails |
| RequestObject.RequestName | bus/driver.c:558-620 | a dispatched RequestName is the request of the specification: reply, registry, pending activations, answers and licences; its reply code describes the caller's position |
| CancelObject.CancelHooks | bus/connection.c:1944-1975 | whatever hooks the transaction holds: those of registry, licences and activations run newest first and are freed after that |
| CancelObject.CancelTransaction | bus/connection.c:2160-2178 | cancelling drops the messages of the transaction, then runs and frees its hooks |
| CancelObject.CancelledRequestName | bus/services.c:661-769 | a RequestName for any name that runs out of memory before the owners have changed altogether, while waiting messages are sent or after that leaves pending activations and pending replies as they were and none of its messages; registry and reference counts are as they were if and only if the request was refused or the change made by then can be undone |
| TransactionCore.RunAllParts | bus/connection.c:1944-1975 | running all hooks of a transaction runs, for each part of the daemon, the hooks that concern it, those that restore a displaced owner included |
| TransactionCore.CancelRestoresBus | bus/connection.c:2160-2178 | memory running out after any step of a dispatch, changes of owners of every kind included, followed by cancelling, restores owner queues, back-index, connection lists, pending replies, pending activations and waiting messages if and only if no step changed owners in a way that cannot be undone, joined an activation or completed a connection; which parts are restored otherwise is stated for each |
| Departure.OwedRepliesStay | bus/connection.c:1581-1637 | exactly the replies that others wait for remain, those the connection owed marked as overdue |
| Departure.ConnectionIsGone | bus/connection.c:170-293 | a disconnected connection is in no owner queue, connection list, transaction or pending reply; everybody else's positions, messages and replies stay |
| Connections.CountsAreExact | bus/connection.c:112-168 | in every run the count of a user is the number of its completed connections plus its completions that failed after being counted, and every count is within its limit |
| Connections.CountIsNumberIff | bus/connection.c:1352-1434 | in every run the count of a user is the number of its completed connections if and only if no completion of that user failed after it was counted |
| Connections.ChargedForever | bus/connection.c:1396-1433 | a run after which a user without connections is at the limit |
| Connections.RunKeepsOrder | bus/connection.c:716-717 | as long as the clock does not go back, incomplete connections stay sorted oldest first |
| Connections.ExpireIsExact | bus/connection.c:796-851 | on a sorted list the scan that stops early closes exactly the timed-out connections and sets the timer to the least time left |
| Connections.ScanIsExact | bus/connection.c:796-851 | so it does after every run |
| Connections.RunListedOnce | bus/connection.c:257-283 | in every run a connection is in at most one place of one list |
| Connections.UnlistedOnce | bus/connection.c:257-283 | and in none after it disconnected |
| ConnectionsObject.ConnectionTable.ExpireIncomplete | bus/connection.c:796-851 | the loop with its early exit is the scan |
| ConnectionsObject.ConnectionTable.SetupConnection | bus/connection.c:712-744 | the new lists, and the oldest connection closed if there are too many |
| ConnectionsObject.ConnectionTable.CheckLimits | bus/connection.c:1451-1485 | whether one more connection fits |
| ConnectionsObject.ConnectionTable.CompleteConnection | bus/connection.c:1352-1434 | the new lists and counts for every way the completion ends |
| ConnectionsObject.ConnectionTable.ConnectionDisconnected | bus/connection.c:257-283 | the new lists and counts; no counter goes below zero |
| ConfigIncludes.MergeIsApply | bus/config-parser.c:274-335 | merging what a file says is applying its directives in place, the service helper and syslog aside |
| ConfigIncludes.ProcessIsWritten | bus/config-parser.c:2036-2107 | processing elements with their includes is applying their expansion, with the same error if it has one; both end on every set of files |
| ConfigIncludes.LoadIsInlining | bus/config-parser.c:2036-2233 | loading a file with all its includes gives the configuration, or the error, of the file with the included directives written out |
| ConfigCycles.CircularErrorIsGenuine | bus/config-parser.c:337-353 | a circular-inclusion error means that some chain of includes comes back to a file it went through |
| ConfigCycles.ResolvedIffNoRepeats | bus/config-parser.c:337-353 | with all files present, includes can be resolved if and only if no chain of includes goes through a file twice |
| ConfigMissing.DroppedIffLeadsToMissing | bus/config-parser.c:2036-2107 | for a file that is there, ignore_missing matters if and only if a chain of includes that do not ignore it leads to something missing before anything else fails; then nothing of the file is kept |
| ConfigMissing.DroppedIffEndsMissing | bus/config-parser.c:2036-2233 | among well-made files without circles: if and only if any such chain exists |
| ConfigMissing.ListenIsLost | bus/config-parser.c:2074-2084 | a configuration whose included file is there and yet does not count |
| ConfigObject.MoveLinksUnique | bus/config-parser.c:228-272 | directories are appended in order, each once |
| ConfigObject.MergeIdHash | bus/policy.c:637-658 | merging per-user or per-group tables appends list to list, whatever order the keys come in |
| ConfigObject.MergeContexts | bus/config-parser.c:185-226 | contexts of the included file override |
| ConfigObject.Parser.MergeIncluded | bus/config-parser.c:274-335 | the merged fields |
| ConfigObject.Parser.IncludeFile | bus/config-parser.c:2036-2107 | the stack of included files is restored, and the parser is what the specification says, or the error is |
| ConfigObject.Parser.IncludeDirectory | bus/config-parser.c:2143-2233 | the same for all files of a directory |
| ConfigObject.Parser.ProcessItems | bus/config-parser.c:2235-2535 | the same for the elements of a file |
| ConfigObject.LoadConfig | bus/config-loader-expat.c:165-295 | loading the top-level file is the load of the specification |
| DesktopFiles.Unescape | bus/desktop-file.c:179-263 | unescaped text has no NUL, is never longer than its source, and is empty only if the source is |
| DesktopFiles.UnescapeEscape | bus/desktop-file.c:179-263 | unescaping undoes escaping |
| DesktopFiles.ParsePrinted | bus/desktop-file.c:393-576 | every list of sections that can be written is read back as it was |
| DesktopFiles.ParsedIsValid | bus/desktop-file.c:450-576 | whatever is read has non-empty names, keys of key characters and no NUL |
| DesktopFiles.PrintedFormIsCanonical | bus/desktop-file.c:610-701 | printing what was read from any accepted text gives a text that reads the same |
| DesktopFileObject.FindEol | dbus/dbus-string.c:1899-1950 | the first line end and its length |
| DesktopFileObject.UnescapeString | bus/desktop-file.c:179-263 | the loop computes the unescaped text and stays within its buffer |
| DesktopFileObject.IsBlankLine | bus/desktop-file.c:338-358 | whether only white space follows up to a newline, a NUL or the end |
| DesktopFileObject.ReadKeyValue | bus/desktop-file.c:463-523 | what a line says, with all its errors |
| DesktopFiles.EveryNameIsAccepted | bus/desktop-file.c:376-391 | the check of section names refuses none |
| DesktopFiles.HeaderIff | bus/desktop-file.c:393-448 | a line is a header if and only if it is long enough, ends in a bracket and unescapes |
| DesktopFiles.BracketInHeader | bus/desktop-file.c:376-391 | a header that is accepted although the rule forbids it |
| DesktopFileObject.CheckSectionName | bus/desktop-file.c:376-391 | the loop computes the check |
| DesktopFileObject.ReadHeader | bus/desktop-file.c:393-435 | what a header line says, with all its errors |
| DesktopFileObject.Parser.ParseSectionStart | bus/desktop-file.c:393-448 | the new section and position, or the error with its line and section |
| DesktopFileObject.Parser.ParseKeyValue | bus/desktop-file.c:450-576 | the new line and position, or the error |
| DesktopFileObject.Parser.ParseNext | bus/desktop-file.c:677-696 | one pass of the main loop reads one item and consumes text |
| DesktopFileObject.Parser.Load | bus/desktop-file.c:667-701 | the main loop ends and computes what the parser function computes |
| DesktopFileObject.GetRaw | bus/desktop-file.c:703-769 | the value is that of the first line with the key in the first section with the name |

## Left out

- Names of the form ".unique-" and process probing on Windows (bus/services.c:394-529, 555-568).
- SELinux, bus-name syntax, match rules and message sizes: their verdicts are parameters.
- The main loop, message marshalling, hash tables and lists of libdbus: sequences, maps and a timer with a deadline.
- The delivery of ownership signals: the log holds the signals the driver emits. That the policy of a recipient may drop what the driver sends is modelled for error replies, not for signals.
- Messages to the bus driver other than Hello, RequestName and ReleaseName: what the driver answers is a parameter of the dispatch.
- Configuration reload and limits that change while the daemon runs; the cache of service files (bus/activation.c:248-673), in which the two tables need not agree.
- XML syntax, element nesting and attribute checks: a configuration file is a sequence of elements with resolved paths, and every syntax error is one `Malformed` element. SELinux-relative includes are ordinary includes or absent.
- A key before the first section header in a service file: the C code then uses section number -1; the model ends with `NoSection`.
- The doubling growth of the parser's arrays (bus/desktop-file.c:126-178), UTF-8 validation and the size limit before parsing.
- Names and values are sequences of characters; encodings are not modelled.
- Connections.RunKeepsOrder: requires a clock that does not go back, as the comment in the source does; with a wall clock set back a younger connection can stand before an older deadline.
- ExpireTimers.TimerNeverLate: requires the same of the clock, and a timer pass starts with no transaction open, so that no licence is held by a hook only.
- TransactionCore.CancelRestoresBus: the next identities of replies and activations are not restored, because the source has no such counters; records are compared by their contents.
- RegistryObject.Registry.Ensure: without the replies to those who asked for the service (bus/services.c:308); `RequestObject.AcquireService` sends them once the queue is edited, which puts the same messages into the same transaction.
- RegistryObject.Registry.ReleaseName: executed transactions only; `OwnerUndo.ReleaseUndoneIff` and `TransactionCore.CancelRestoresBus` are about cancelled ones.
- DispatchObject.DispatchMessage: memory runs out between two recipients, not between the check and the queueing of one, which makes a difference only if the sender is gone; the effects of the driver and of an activation on their own tables are those of the modules about them.
- CancelObject.CancelledRequestName: the signals of a request are a list given to it, put into the transaction before the owners change; that cancelling drops them does not depend on their order.
- ReplyRuns.EveryExpectationHasOneFate: a NoReply error is one the daemon puts into a transaction; that the policy of its recipient may drop it (bus/connection.c:2034-2039) is not counted.
- ActivationAnswers.AnsweredOnceIff: an answer is a message put into an executed transaction; whether the policy of its recipient drops it is not counted.
- Launch helper, directory watchers, process control, test code and other thin wrappers.
