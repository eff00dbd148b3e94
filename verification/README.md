# Verified model of the RBase registry protocol

RBase keeps copies of a typed property registry in step across processes. This project models the
parts of it whose behaviour is hard to see from the code, and proves what they guarantee:

* **Nested replication** (`Propagation`, `Spreading`, `EventOrder`, `MessageCount`,
  `NestedNetwork`). One `Registry::set` on any graph of registries and adapters, where every sent
  entry is handed to the peer's receive callback before the sending call returns. `Propagation` is the value-level
  specification over numbered registries and adapters. `NestedNetwork` has the mutable registries,
  adapters and loops, and proves that they do exactly what the specification does. `Spreading`,
  `EventOrder` and `MessageCount` prove what that is: termination on every topology, who is told and
  in which order, the exact set of registries a write reaches, convergence, and the exact number of
  messages.
* **Replication over queues** (`Endpoint`, `Link`, `Connection`, `Synchronisation`,
  `CrossedAnswer`). Two endpoints joined by two FIFO channels, with calls and deliveries in any
  order: the subscription tables, the subscribe-then-request handshake, the reader's history of
  changes, and the exact conditions under which these can be relied on.
* **The lossy dropper** (`Dropper`). The sequence-number filter with its unsigned comparison, signed
  distance, adapter switch and reset, over unbounded message streams.
* **The console line** (`Base64`, `Console`). The transmit callback that prints a block as a padded
  base 64 line, and the parser of such lines.
* **The database log** (`Persistency`, `EventLog`). Producers, one worker, and the thread that
  enables and disables it, around a queue guarded by a mutex; and the path from a received message
  to an inserted row.
* **The flat numbering** (`Numbering`) of (type, property) pairs, for every table of entry counts.

`Entries` holds the property list and the tables laid out over it.

Values are integers: the protocol only compares them, and the comparison must be reflexive.
Sequence numbers and stored adapter ids are 16 bits wide, with narrowing and the signed
reinterpretation written out. Base 64 refers to section 4 of RFC 4648.

## What was found

* Subscribe-then-request does not always synchronise. A reader that never writes a property can
  still overwrite the publisher's newer value: if the reader's own adapter is subscribed to the
  property, because it was built so or because the publisher subscribed, and the publisher requests
  the property, the reader's answer can cross the publisher's new value. With a reader that neither
  writes nor unsubscribes, and from any starting values, subscriptions and channel contents, every
  run that delivers everything ends with equal values exactly when no REQUEST in flight at the start
  finds the reader subscribed, and the publisher does not both request the property and have the
  reader subscribed (`SynchronisesIff`). The same condition decides whether an UPDATE ever travels
  back and whether the reader's history stays a prefix of the publisher's (`ReaderFollowsIff`).
* The console line and its parser undo each other exactly for payload lengths that are 1 modulo 8
  (`RoundTripIff`). In MIXED mode the callbacks get a line without any padding, because the console
  half has used up the counter that both halves share.
* A sender that counts through the 16-bit range loses 50 messages per wrap once its record carries
  its id (`ExactLoss`); an adapter id outside 16 bits never loses any (`WideIdsLoseNothing`).
* Two updates may overtake each other exactly when the older number lies in the drop arc of the
  newer one (`OvertakingIsHarmlessIff`): a span of 51, or the step from 32767 to 32768, is too much.
* `stop()` can wait for ever (`StopCanHang`): without spurious wakeups some schedule makes it hang
  exactly when its announcement finds the worker past its look at the stop flag and not yet waiting
  (`StopCanHangIff`). It then still returns in some schedules exactly when the pushes already under
  way are enough to pass the trigger (`StopReturnsIff`); left to itself the worker ends exactly when
  it was not in between (`WorkerAloneEndsIff`).

## Model

| member | source | states |
|---|---|---|
| Propagation.SetRegistry | RRegistry/include/RRegistry/Registry.hpp:71-93 | the mutual recursion of set, forward, send and receive terminates on every topology (the number of registries not yet at v falls); values only ever move to v, the origin ends at v, no list of a registry already at v is touched, only expired adapters are pruned |
| Propagation.Forward | RRegistry/include/RRegistry/Registry.hpp:82-89 | the same for the loop over the adapters of a registry that already holds v, which may erase from the list it walks |
| Propagation.Send | RComm/include/RComm/LiteCommAdapter.hpp:210-238 | the same for one adapter's set with nested delivery |
| Propagation.Receive | RComm/include/RComm/LiteCommAdapter.hpp:112-136 | the same for the callback that handles an UPDATE, for any drop decision |
| Propagation.PendingShrinks | RRegistry/include/RRegistry/Registry.hpp:77-81 | the termination measure: storing before forwarding makes the number of registries not at v smaller, and no step makes it larger |
| Propagation.RestComesNext | RRegistry/include/RRegistry/Registry.hpp:82-89 | whether an entry was set or erased, the loop goes on with exactly the rest of the list as it was |
| Spreading.ReceiversCalledOnce | RRegistry/include/RRegistry/Registry.hpp:77-92 | any topology, values, flags, subscriptions and drops: a receiver is called exactly once, seeing v, if its registry changed, and never otherwise |
| Spreading.HadUpdateIffArrived | RComm/include/RComm/LiteCommAdapter.hpp:112-134 | hadUpdate is raised at exactly the adapters at which an UPDATE arrived that was not dropped; these accept afterwards whatever they did before, all others keep their accept flag; sent messages are never taken back |
| Spreading.PrunesExpired | RRegistry/include/RRegistry/Registry.hpp:82-89 | any topology, flags and drops: a registry that changed has lost exactly its expired adapters and kept the others in order, every other list is as it was |
| EventOrder.SendsThenTells | RRegistry/include/RRegistry/Registry.hpp:82-92 | any topology, flags, subscriptions and drops: a registry that changed sends on all its adapters before it tells any receiver, and tells them in order of registration; a registry that did not change neither sends nor tells |
| EventOrder.EveryAdapterSendsOnce | RComm/include/RComm/LiteCommAdapter.hpp:219-238 | any topology, flags of the others and drops: an accepting, live, subscribed adapter of a registry that changed sends exactly one UPDATE, whether or not it is dropped, and none if its registry did not change; only the adapter that brought the change sends none |
| EventOrder.UndroppedArrives | RComm/include/RComm/LiteCommAdapter.hpp:112-134 | an UPDATE that is not dropped where it arrives leaves that registry at v, and a registry other than the origin changes only by such an UPDATE |
| EventOrder.SendsItsOwn | RComm/include/RComm/LiteCommAdapter.hpp:219-227 | a registry at v that serves one adapter is seen to send that one UPDATE and nothing else, exactly if the adapter accepts and is subscribed |
| Spreading.SetSpreads | RComm/include/RComm/LiteCommAdapter.hpp:125-134 | echo suppression is safe: a suppressed adapter leads to a registry already at v; so every accept flag comes back as it was, and without drops each registry that changed has all its neighbours at v |
| Spreading.SetIsContained | RRegistry/include/RRegistry/Registry.hpp:71-93 | whatever the flags and drops, a write never leaves a set of registries that no edge between outdated registries leaves |
| Spreading.ReachIsExact | RRegistry/include/RRegistry/Registry.hpp:71-93 | from arbitrary values: a registry changes if and only if a walk of live, subscribed adapters through outdated registries leads to it from the origin |
| Spreading.Convergence | RRegistry/include/RRegistry/Registry.hpp:71-93 | in an agreeing network one write leaves every connected registry at v and every other as it was, all adapters accepting, and the network agreeing |
| MessageCount.SetCounts | RComm/include/RComm/LiteCommAdapter.hpp:125-134 | the messages of one write are the adapters of the registries that changed, less one for each such registry (the adapter that brought the change), plus one if no adapter brought it to the first |
| MessageCount.ExactMessageCount | RComm/include/RComm/LiteCommAdapter.hpp:219-227 | one changing write in a component of n registries and L links, whose adapters are wired, subscribed and registered once, costs exactly 2L - n + 1 UPDATEs, whatever the rest of the network looks like |
| MessageCount.ComponentChanges | RRegistry/include/RRegistry/Registry.hpp:71-93 | a changing write changes exactly the registries connected to its origin, if these agreed |
| MessageCount.TwoEndsPerLink | RRegistry/test/adapter.cpp:30-44 | adapters wired in pairs: a component has two adapters per link |
| NestedNetwork.Registry.Set | RRegistry/include/RRegistry/Registry.hpp:71-93 | the method on mutable registries and adapters leaves exactly the state SetRegistry computes: this property everywhere, every flag, list, notification and message, and nothing else changed |
| NestedNetwork.Registry.InitDefaults | RRegistry/include/RRegistry/Registry.hpp:39-55 | when the constructor has run its nested loops, every numeric property holds its default and strings are untouched |
| NestedNetwork.Registry.StoreValue | RRegistry/include/RRegistry/Registry.hpp:81 | one cell of one registry changes; every other property of every registry stays |
| NestedNetwork.Registry.ForwardToAdapters | RRegistry/include/RRegistry/Registry.hpp:82-89 | the while loop over the weak pointers, although nested calls run in it, equals the recursive specification |
| NestedNetwork.Registry.ServeEntry | RRegistry/include/RRegistry/Registry.hpp:83-88 | one turn: a lockable adapter is set and the position moves on, an expired one is erased and it stays |
| NestedNetwork.Registry.EraseEntry | RRegistry/include/RRegistry/Registry.hpp:87 | exactly the expired entry leaves the list |
| NestedNetwork.Registry.TellReceivers | RRegistry/include/RRegistry/Registry.hpp:90-92 | every receiver, in order, sees the stored value |
| NestedNetwork.Adapter.constructor | RComm/include/RComm/LiteCommAdapter.hpp:75-84 | a new adapter accepts, has seen no update, and is subscribed to everything or to nothing |
| NestedNetwork.Adapter.Set | RComm/include/RComm/LiteCommAdapter.hpp:210-238 | the three results, and the whole network afterwards, as Send says |
| NestedNetwork.Adapter.ReceiveUpdate | RComm/include/RComm/LiteCommAdapter.hpp:112-136 | the whole network afterwards, as Receive says |
| NestedNetwork.NetworksAreNumbered | RRegistry/include/RRegistry/Registry.hpp:28-37 | every set of registries and adapters that refer only to each other is covered by the specification, for every numeric property |
| NestedNetwork.NetworkConverged | RRegistry/include/RRegistry/Registry.hpp:71-93 | what Convergence means for the objects: values, untouched properties, accept flags, and agreement at both ends of every registered link |
| Endpoint.QueuedAdapter.Set | RComm/include/RComm/LiteCommAdapter.hpp:210-238 | at most one UPDATE is queued, only when accepting and subscribed, and never for strings |
| Endpoint.QueuedAdapter.WriteRegistry | RRegistry/include/RRegistry/Registry.hpp:71-93 | an unchanged value does nothing; a new one is stored and offered to the adapter |
| Endpoint.QueuedAdapter.SubscribeAt | RComm/include/RComm/LiteCommAdapter.hpp:262-272 | the own table of remote subscriptions and the SUBSCRIBE message move together |
| Endpoint.QueuedAdapter.UnsubscribeAt | RComm/include/RComm/LiteCommAdapter.hpp:273-283 | the same for UNSUBSCRIBE |
| Endpoint.QueuedAdapter.ReceiveEntry | RComm/include/RComm/LiteCommAdapter.hpp:100-153 | the receive callback on every message: entries out of range, unknown message types and UPDATEs the dropper policy refuses do nothing, any other UPDATE writes with the adapter suppressed, the other three act on their table or answer |
| Link.HadUpdateIffDelivered | RComm/include/RComm/LiteCommAdapter.hpp:123-134 | in every run hadUpdate is raised at a side exactly if an UPDATE in range was delivered to it |
| Link.StringsStayLocal | RRegistry/include/RRegistry/Registry.hpp:257-270 | string properties are stored locally, never sent, and not changed by what is received |
| Connection.Pair.Perform | RRegistry/test/adapter.cpp:30-44 | two adapter objects, each handing its oldest entry to the other's receive callback, do exactly one step of the two-endpoint system, for every call and delivery |
| Connection.ObjectsMirror | RComm/include/RComm/LiteCommAdapter.hpp:262-283 | the objects after any run from fresh adapters: with nothing on the way to one of them, its subscriptions are the other's remote subscriptions |
| Connection.ObjectsSynchronise | RComm/include/RComm/LiteCommAdapter.hpp:137-152 | the objects after the handshake and any run in which the reader has no occasion to answer: with no request and no update in flight, both registries hold the same value |
| Link.SubscriptionMirror | RComm/include/RComm/LiteCommAdapter.hpp:145-152 | in every run on any properties, applying the control messages in flight to one side's subscriptions gives the other side's table of remote subscriptions |
| Link.TablesAgreeWhenDrained | RComm/include/RComm/LiteCommAdapter.hpp:262-283 | from fresh endpoints, with an empty channel the two tables are equal |
| Synchronisation.QuietStep | RComm/include/RComm/LiteCommAdapter.hpp:125-144 | as long as no REQUEST in flight finds the reader subscribed and the publisher cannot send one that does, no step puts an UPDATE of the property on the way back |
| Synchronisation.WillAnswerHead | RComm/include/RComm/LiteCommAdapter.hpp:137-152 | whether a REQUEST in flight will be answered does not depend on how much of the channel has been handled |
| Synchronisation.StepEffect | RComm/include/RComm/LiteCommAdapter.hpp:112-144 | while the reader is quiet: the only four things a step can do to the property and its UPDATEs in flight |
| Synchronisation.SubscribeThenRequestSynchronises | RComm/include/RComm/LiteCommAdapter.hpp:137-152 | any starting values, anything in flight in both directions and any interleaving: once the request was handled, the last UPDATE in flight carries the publisher's current value, so without one the values are equal; provided no REQUEST for the property that is in flight to the reader, or that the publisher may still send, finds the reader subscribed |
| Synchronisation.TracePrefix | RRegistry/include/RRegistry/Registry.hpp:75-89 | under that same condition, from an agreeing start: at every point of every run the reader's changes, continued by what the UPDATEs in flight will still change, are the writer's changes, and nothing travels back |
| Synchronisation.InFlightIsMissingSuffix | RComm/include/RComm/LiteCommAdapter.hpp:211-238 | under that same condition and without requests from the reader: the UPDATEs in flight are exactly the missing suffix, free of repetitions |
| CrossedAnswer.SynchronisesIff | RComm/include/RComm/LiteCommAdapter.hpp:255-272 | from any starting values, subscriptions and channels: the handshake synchronises in every run if and only if no answer of the reader is due at the start, and the publisher does not both request the property and have the reader subscribed to it (from the start or by itself) |
| CrossedAnswer.FailingRunDiverges | RComm/include/RComm/LiteCommAdapter.hpp:137-144 | in each failing case, a concrete run that ends with everything delivered and unequal values |
| CrossedAnswer.ReaderFollowsIff | RComm/include/RComm/LiteCommAdapter.hpp:211-238 | from an agreeing start: that no UPDATE ever travels back, that the reader's history is always a prefix of the publisher's, and that the UPDATEs in flight are what is missing, each hold in every run if and only if the same condition holds |
| CrossedAnswer.StrayingRunFails | RComm/include/RComm/LiteCommAdapter.hpp:137-144 | in each failing case, a concrete run that breaks all three |
| Dropper.LossyPolicy.ShouldBeDropped | RComm/include/RComm/LiteCommDropper.hpp:36-71 | the decision and the whole record table, for each of the five branches |
| Dropper.LossyPolicy.ResetAll | RComm/include/RComm/LiteCommDropper.hpp:48-53 | the nested loop makes every record of every type fresh |
| Dropper.DropSet | RComm/include/RComm/LiteCommDropper.hpp:57-70 | closed form of the drop set across the signed and unsigned borders; a refusal leaves the record alone |
| Dropper.AcceptedRecord | RComm/include/RComm/LiteCommDropper.hpp:57-68 | the record each accepted number leaves: at or above the mark the number becomes the mark; far below it the mark becomes 0 and the id stays; inside the arc from another adapter both are taken over, the id modulo 65536 |
| Dropper.JumpBackForgives | RComm/include/RComm/LiteCommDropper.hpp:60-63 | after a jump back the next message of the property is accepted, whatever its number and sender and whatever traffic comes in between |
| Dropper.NonInterference | RComm/include/RComm/LiteCommDropper.hpp:42-55 | decisions on one property in any stream are those on its own messages and the resets |
| Dropper.RecordsAfterReset | RComm/include/RComm/LiteCommDropper.hpp:48-53 | after a reset the records depend on the later messages only |
| Dropper.Forgetting | RComm/include/RComm/LiteCommDropper.hpp:42-55 | after a reset, which is itself refused, the decisions are those of a newly built policy |
| Dropper.BoundedStarvation | RComm/include/RComm/LiteCommDropper.hpp:57-70 | from any state a sender stepping by one has at most 50 messages refused in a row, with any traffic and resets in between |
| Dropper.StarvationBoundIsTight | RComm/include/RComm/LiteCommDropper.hpp:60-61 | 50 in a row do happen |
| Dropper.RefusalsUseUpRoom | RComm/include/RComm/LiteCommDropper.hpp:57-70 | refusals in a row, plus the room left for further ones, never exceed the room at the start |
| Dropper.ExactLoss | RComm/include/RComm/LiteCommDropper.hpp:57-63 | exact loss and exact record of a counting sender after any number of wraps: none in the first 65536, then 50 per wrap (one wrap later for ids other than 0) |
| Dropper.WideIdsLoseNothing | RComm/include/RComm/LiteCommDropper.hpp:64-67 | an id that does not fit the 16-bit field never matches it |
| Dropper.KeepsRunningMaximum | RComm/include/RComm/LiteCommDropper.hpp:57-70 | on a batch spanning at most 50 inside one half, the filter keeps a message if and only if it is at least the running maximum |
| Dropper.OrderIndependence | RRegistry/test/lossy.cpp:147-155 | any two arrival orders of such a batch, repetitions included, leave the value with the highest number and the same record |
| Dropper.OvertakingIsHarmlessIff | RComm/include/RComm/LiteCommDropper.hpp:57-70 | a pair may overtake if and only if the older number is in the drop arc of the newer |
| Base64.RegroupingRoundTrip | RSupport/src/ConsoleAdapter.cpp:104-106 | 8-to-6 and back, with zero sextets appended, gives every whole byte of the stream: the bytes, then zeros |
| Base64.StreamIsRfc4648 | RSupport/src/ConsoleAdapter.cpp:33-34 | the regrouped bit stream is the standard's encoding of three bytes in four values, short last groups included |
| Base64.BytesAreRfc4648 | RSupport/src/ConsoleAdapter.cpp:104-106 | decoding by regrouping is the standard's decoding of four values in three bytes, for every sequence of values |
| Base64.AlphabetIsTable1 | RSupport/src/ConsoleAdapter.cpp:33-34 | the printer's 64 characters are those of table 1 of RFC 4648 |
| Base64.KnownCharacters | RSupport/src/ConsoleAdapter.cpp:105 | the decoder knows exactly those characters |
| Base64.ValuesOfText | RSupport/src/ConsoleAdapter.cpp:46-48 | encoded text decodes to its values and contains no '=' and no newline |
| Console.ConsoleAdapter.Transmit | RSupport/src/ConsoleAdapter.cpp:28-72 | in STDOUT mode only the console grows, by the padded standard line; in CALLBACK mode every callback gets that line and the console nothing; in MIXED mode the console gets that line and every callback the standard characters without any padding |
| Console.ConsoleAdapter.PrintLine | RSupport/src/ConsoleAdapter.cpp:43-55 | the console line, and the padding counter left at -1 |
| Console.ConsoleAdapter.ComposeLine | RSupport/src/ConsoleAdapter.cpp:58-65 | the callback line with as much padding as the counter allows |
| Console.ConsoleAdapter.WriteToCallbacks | RSupport/src/ConsoleAdapter.cpp:66-68 | every callback gets the line once |
| Console.ConsoleAdapter.Parse | RSupport/src/ConsoleAdapter.cpp:135-167 | which lines are ignored, which are invalid, and the bytes handed on otherwise |
| Console.WhatIsRead | RSupport/src/ConsoleAdapter.cpp:135-166 | a line is ignored exactly if it does not start with "!:" and go on, and invalid exactly if a character before the first newline is neither '=' nor in the alphabet |
| Console.WhatIsHandedOn | RSupport/src/ConsoleAdapter.cpp:151-159 | the bytes handed on are those of the standard's decoding with '=' read as value 0: of n decoded bytes the first n / 8 * 8 + 1, with a zero byte after them if n is too small |
| Console.ConsoleAdapter.CutAtNewline | RSupport/src/ConsoleAdapter.cpp:151 | the text before the first newline |
| Console.ConsoleAdapter.ReplaceEquals | RSupport/src/ConsoleAdapter.cpp:152 | every '=' becomes 'A' |
| Console.LineShape | RSupport/src/ConsoleAdapter.cpp:41-65 | a padded line is the prefix, the section 4 encoding with its padding, exactly two more '=', and its only newline |
| Console.ReadsBack | RSupport/src/ConsoleAdapter.cpp:151-159 | a body with any number of '=' decodes to the payload followed by zero bytes only |
| Console.DecodedLengths | RSupport/include/RSupport/ConsoleAdapter.hpp:43-46 | padded lines decode to 3*ceil(n/3)+1 bytes, bare ones to n |
| Console.RoundTripIff | RSupport/src/ConsoleAdapter.cpp:135-159 | every line the printer can emit, with or without its newline, hands on exactly the payload if and only if its length is 1 modulo 8 |
| Console.CallbackLineShape | RSupport/src/ConsoleAdapter.cpp:56-69 | CALLBACK mode gives the padded standard line, MIXED mode the standard values without any padding |
| Persistency.DBPersistencyPolicy.Push | RRegistry/src/DBPersistencyPolicy.cpp:184-211 | nothing while stopped; otherwise the row is queued, and the worker notified exactly when the counter passes the trigger |
| Persistency.PushIsTwoSteps | RRegistry/src/DBPersistencyPolicy.cpp:189-210 | in the protocol a push is refused exactly by the stop flag it sees, and is otherwise queued as the object's push says, even if a stop is requested in between |
| Persistency.DrainHoldsLock | RRegistry/src/DBPersistencyPolicy.cpp:327-338 | while the worker drains, no other thread's step touches what the lock protects |
| Persistency.NothingBeforeEnable | RRegistry/src/DBPersistencyPolicy.cpp:112-151 | before the first enable no step of any thread accepts, notifies or logs anything |
| Persistency.SetUpComesFirst | RRegistry/src/DBPersistencyPolicy.cpp:291-325 | the transaction with the general data comes first in every log |
| Persistency.DBPersistencyPolicy.Drain | RRegistry/src/DBPersistencyPolicy.cpp:331-338 | the loop empties the queue into one transaction, in order |
| Persistency.DrainIsWorkerSteps | RRegistry/src/DBPersistencyPolicy.cpp:331-338 | the loop is the worker's own steps in the protocol, two per row and one to commit |
| Persistency.WokenWorkerDrains | RRegistry/src/DBPersistencyPolicy.cpp:331-338 | what the object's drain leaves is what a woken worker leaves when it moves on its own |
| Persistency.DrainInsertsQueue | RRegistry/src/DBPersistencyPolicy.cpp:331-338 | a drain inserts exactly the queued rows, in order, in one closed transaction, and changes nothing else |
| Persistency.Conservation | RRegistry/src/DBPersistencyPolicy.cpp:204-210 | in every reachable state: rows inserted, then the row in the worker's hand, then the queue, are the accepted pushes in lock order; every insert lies in one transaction |
| Persistency.StepConserves | RRegistry/src/DBPersistencyPolicy.cpp:326-339 | every step of any thread keeps that |
| Persistency.CommitsEverything | RRegistry/src/DBPersistencyPolicy.cpp:332-338 | at each commit of a drain the inserted rows are the whole push history |
| Persistency.TriggerAccounting | RRegistry/src/DBPersistencyPolicy.cpp:204-210 | pushes are notifications times trigger + 1, plus the counter; at most trigger rows pile up behind a sleeping worker that nobody has notified |
| Persistency.StopCanHang | RRegistry/src/DBPersistencyPolicy.cpp:152-165 | a stop requested right after the worker saw the flag down is reachable, and after it no step of any thread but a spurious wakeup frees the thread that waits in stop |
| Persistency.WorkerAloneEndsIff | RRegistry/src/DBPersistencyPolicy.cpp:326-340 | when a stop is announced, the worker left to itself ends if and only if it is not between its look at the flag and its wait |
| Persistency.StopReturnsIff | RRegistry/src/DBPersistencyPolicy.cpp:152-165 | with every thread running and no spurious wakeup, stop can return if and only if the worker is not in between, or the pushes already past their own look at the flag are enough to pass the trigger |
| Persistency.ReturnStaysInReach | RRegistry/src/DBPersistencyPolicy.cpp:326-340 | if the worker was not in between when the stop was announced, stop can still return after any further steps |
| Persistency.StopCanHangIff | RRegistry/src/DBPersistencyPolicy.cpp:152-165 | when a stop is announced, some schedule leads to a state from which stop cannot return without a spurious wakeup, if and only if the worker is between its look at the flag and its wait |
| Persistency.StuckForever | RRegistry/src/DBPersistencyPolicy.cpp:204-210 | once stuck with too few pushes under way, every run without a spurious wakeup stays stuck |
| Persistency.WakeEndsHang | RRegistry/src/DBPersistencyPolicy.cpp:328 | one spurious wakeup lets a stop that hangs return |
| EventLog.HandleRecords | RComm/include/RComm/LiteCommAdapter.hpp:100-166 | after every message: exactly one row, pushed or being pushed, for each message handled, in order, with the value stored when it was handled |
| EventLog.HandlesWhatItAccepts | RComm/include/RComm/LiteCommAdapter.hpp:104-166 | in every run the messages handled are exactly those, of every kind, that were in range and not refused by the dropper policy, in order; and the endpoint is what receiving just these makes of it |
| EventLog.EndToEndLog | RRegistry/src/DBPersistencyPolicy.cpp:184-211 | the inserted rows are a prefix of the handled messages, one each and in order; every row carries the value stored when its message was handled, an UPDATE's row the received value |
| EventLog.RowsAreWhatWasReceived | RRegistry/src/DBPersistencyPolicy.cpp:184-211 | row j is the id, property and value that the j-th such message left in an endpoint that received just the first j + 1 of them |
| Numbering.GetFullEntryCount | RRegistry/include/RRegistry/Detail.hpp:606-614 | the sum of all counts |
| Numbering.GetTypeFromContinuousNumber | RRegistry/include/RRegistry/Detail.hpp:616-626 | the search stays inside the table and finds the type whose block holds the number, empty types skipped |
| Numbering.NormalizeContinuousNumber | RRegistry/include/RRegistry/Detail.hpp:628-636 | the offset inside that block; a negative number is left alone |
| Numbering.GetContinuousNumberFromPropertyType | RRegistry/include/RRegistry/Detail.hpp:638-647 | the upward search stops at the number that names the pair |
| Numbering.NumberingIsBijection | RRegistry/include/RRegistry/Detail.hpp:606-647 | numbers below the total and valid pairs correspond one to one, in nested-loop order |
| Numbering.InitDefaultsOrder | RRegistry/include/RRegistry/Registry.hpp:39-55 | the nested loops visit the pairs in the order of their numbers, each once |

## Left out

- RCore framing, acknowledgement, retransmission and the assignment of sequence numbers: an entry arrives unchanged, nested in the first replication model and first-in first-out in the second.
- `String` properties over an adapter: the specialised `set` is an `assert(false)` (Registry.hpp:257-270). The queue model sends nothing, as a build without assertions does; the nested model excludes strings.
- NaN values: equality is not reflexive there, and the recursion need not end.
- `removeAdapter`, `removeReceiver` and `remoteUnsubscribeFromAll`: they do not remove anything reliably, and nothing is claimed about them.
- Receivers that write the registry they are called from, message callbacks, and `adapter.set` calls that bypass the registry.
- Reliability levels, adapter names, and the `m_currentReliability` field: they do not influence which values are stored.
- An adapter without a registry: every adapter of the models has one.
- Several adapters at one endpoint of the queue model, and drops between two queued endpoints: the default policy never drops.
- Writers of one property on both ends of an asynchronous link: the values can cross and stay different.
- The Boost iterators: they are modelled as regrouping of one bit stream. Text whose length is 1 modulo 4, which the printer never emits without padding, is decoded by that rule too.
- What `rcomm_parse_bytes` does with the bytes it is handed, and its return code; `read` and its time-out; `binaryStreamToBitRepresentation`.
- SQLite and its errors (a database that cannot be opened leaves the worker marked as running), time stamps, file names, the general table's rows, and thread creation. A second `enable` before the worker has set `m_running` is not modelled.
- Fair scheduling: that `stop` returns is stated as a run that exists from every state in question, not as a limit on the time it takes.
- Negative numbers given to the numbering search keep their sign; the conversion of the result to an unsigned type is not modelled.
- Numbering.InitDefaultsOrder: states the order of the visits only; the values written are stated by NestedNetwork.Registry.InitDefaults.
- NestedNetwork.Registry.InitDefaults: models the call from the constructor, when nobody is registered; a later call is a sequence of Registry.Set.
- Sockets, frame pacing, environment variables, logging, the option set, SWIG and numpy wrappers, and the description tables.
