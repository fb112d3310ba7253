# Verification of rmqcxx

rmqcxx is a C++ wrapper around rabbitmq-c. Most of its methods hand their arguments
on. This project models the parts that hold state, recursion or arithmetic, in Dafny,
and proves what they promise for every input, every run and every answer of the C
library. The C library itself is only a script of arbitrary answers and a log of calls.

`dafny verify dfyconfig.toml` checks everything.

## Structure

| files | part of the library |
|---|---|
| `FieldTree`, `Flatten`, `TableObject`, `TableScope` | nested argument tables: the trees callers write, the count-and-pointer structures that `TableEntry`, `FieldValue` and `Table` leave in memory, and the `Table` class with its buffer |
| `Comparison`, `Printer`, `Parser` | the recursive equality and stream operators over those structures; a parser that inverts the printed text |
| `Durations`, `DurationSplit`, `Budget` | `timeValue`, `durationValue`, and the time budgets computed from them |
| `Replies`, `Consume`, `ConsumeOutcomes`, `FirstWanted`, `ConsumeOwnership` | `consumeImpl` and the six consume loops: what they wait for, what they call back, and who owns the raw structures |
| `Ownership` | `AMQPStruct` with its `moved_` flag |
| `Lifecycle`, `LifecycleScope`, `LifecycleProofs`, `NestedRpc` | connections, channels, remote calls and their deferred effects |
| `AdvConsumer`, `ConsumerProofs` | the reconnecting consumer of `examples/advconsumer.cpp` as a system of interleaved steps |

Code that updates objects is modelled by classes and methods with loops. Their
postconditions equate the new state, or the log, with a function of the old one, and the
theorems are about those functions; what each function says is pinned down by statements
in terms of its raw inputs (answers, schedules, entries, digits), apart from its definition. Constructors without loops or updates are functions.

The three timed loops differ only in which callback is wanted (lines 313-330, 381-398 and
449-466 of `Connection.hpp`), and so do the three blocking ones; each group is one method
with the wanted kind as a parameter.

## Where the code is not what it seems

The model does what the code does. These are the places where that differs from what the
surrounding comments or names suggest, or where callers must take care:

- `Connection.hpp:663` computes `start - now`, so the second wait inside one consume
  grows by the time already waited. The two waits can take three times the limit
  (`TotalWaitAtMostTriple`, `TotalWaitCanTriple`) and fit in it exactly when the first
  took no time (`TotalWaitFitsIff`); the other order of subtraction always fits
  (`IntendedTotalWaitFits`).
- `Connection.hpp:321`, `389` and `457` subtract the time since the loop began on every turn, so
  elapsed time is charged repeatedly (`BudgetClosedForm`). The budget is the time left
  exactly when earlier turns charged nothing, or when no time is left anyway
  (`BudgetIsTimeLeftIff`).
- `util.hpp:79` and `Connection.hpp:509-510` cast seconds and microseconds separately.
  This is exact for every normalized `timeval` if and only if the (reduced) period divides
  a second or has a denominator that is one more than a multiple of a million numerators
  (`SplitExactIff`). A period of 2/3 s can lose a tick (`TwoThirdsLosesATick`).
- `FieldValue.hpp:158` and `Table.hpp:64`, `71`, `78`, `88` store a container's size in an
  `int`. Flattening preserves meaning if and only if no list is too long for it
  (`FlattenPreservesMeaning`). The constructor at `Table.hpp:49-52` counts its arguments
  at compile time, so there a count that does not fit does not compile.
- `Table.hpp:69-71` and `86-91` leave the source viewing the buffer that now belongs to
  the other table. A table's view is its own if and only if the table was not moved from
  since it was last given contents, or is a null view (`ViewsItselfIff`).
- `AMQPStruct.hpp:55` and `65-70` do not ask whether the source owns. `MoveSafeIff` and
  `AssignSafeIff` say exactly when a further move construction or assignment is safe in
  any state reached by moves from owners; `MovingTwiceDestroysTwice` is a run of two
  moves from one variable.
- `AMQPStruct.hpp:65-70` drops what the target owned, and assigning an object to itself leaves
  it moved, so its raw structure is dropped too (`AssigningToAnOwnerLeaks`). A program
  leaks nothing if and only if it never assigns to an owner (`NothingLeaksIff`).
- `Connection.hpp:570-575` creates the deferred function before the callable runs, and
  fetches one reply when it ends. A callable may send and then make a call of its own, or
  send twice; then a sending is not followed by its own reply
  (`NestingAfterSendingIsNotAnswered`). Every sending is if and only if every callable that
  gets to run sends last (`NestedCallsAreAnsweredIff`). A callable that throws, followed
  by an abnormal reply, ends the program (`ThrowingCanTerminate`); `TerminatesIff` says
  exactly when a call does that.
- `comparison.cpp:38-39` computes microseconds in unsigned 64-bit arithmetic, so times may
  alias (`CloseAliases`). The distance compared is the true one if and only if both times
  wrap equally often (`DistanceIsTrueIff`), and `CloseIsRightIff` says for which pairs the
  answer is right.
- `advconsumer.cpp:121` clears the ack queue because all its ids have become invalid, but threads
  may still hold such ids and queue them later. A running connection can come to
  acknowledge an id of an earlier one if and only if a thread held a message when the
  queue was cleared (`StaleAckPossibleIff`), which happens (`StaleAckHappens`).
- `advconsumer.cpp:102` pushes to the message queue without the lock. The model makes the
  push one atomic step; the code has a data race there.

## Model

| member | source | states |
|---|---|---|
| Flatten.FlattenPreservesMeaning | include/rmqcxx/FieldValue.hpp:48-159 | for every tree, reading the built structure through all its pointers gives back the tree if and only if no list overflows its `int` count; earlier memory is untouched |
| Flatten.FlattenLaysOut | include/rmqcxx/FieldValue.hpp:48-159 | structure by structure, and apart from how it is read: kinds, counts, bytes and items in order lie in memory as the tree has them |
| Flatten.FlattenEntryStands | include/rmqcxx/TableEntry.hpp:88-93 | a converted entry has the key's bytes and a value standing for the entry's tree |
| Flatten.TableStands | include/rmqcxx/Table.hpp:48-52 | the table constructed from entries stands for the list of their trees, in order, exactly when the count fits |
| Flatten.ArrayStands | include/rmqcxx/FieldValue.hpp:156-159 | an array field stands for the list of its items' trees, exactly when the count fits |
| Flatten.BytesKept | include/rmqcxx/util.hpp:43-46 | `bytes` of a container reads back as the container |
| Flatten.BuildingKeepsOthers | include/rmqcxx/Table.hpp:48-52 | building another tree, and freeing buffers outside its backing storage, never changes what an earlier value means |
| FieldTree.ReadFrame | tests/unit/comparison.cpp:78-125 | what a value means, and what it leads to, depends on nothing but its backing storage |
| Comparison.EqualValue | tests/unit/comparison.cpp:78-125 | `operator==` of field values, on any live structures of finite depth, returns true exactly when both mean the same tree, lists with a negative count told apart by the count; it ends |
| Comparison.EqualArray | tests/unit/comparison.cpp:92-99 | the array case, for any counts |
| Comparison.EqualEntry | tests/unit/comparison.cpp:127-129 | equal exactly when keys and meanings agree |
| Comparison.EqualTable | tests/unit/comparison.cpp:131-139 | equal exactly when the tables mean the same, for any counts |
| Comparison.CompareBuilt | tests/unit/comparison.cpp:78-139 | two structures built anywhere in memory compare equal exactly when built from equal trees |
| Comparison.DistanceIsTrueIff | tests/unit/comparison.cpp:35-42 | for every pair whose difference is defined, the distance compared is the true one if and only if both times wrap equally often |
| Comparison.CloseIff | tests/unit/comparison.cpp:35-42 | and the pair is called close if and only if it is less than 100 microseconds apart but for whole 64-bit words |
| Comparison.CloseIsRightIff | tests/unit/comparison.cpp:35-42 | so the answer is the right one if and only if both wrap equally often, or they are not near even so |
| Comparison.CloseIsNear | tests/unit/comparison.cpp:35-42 | in particular it is right for times that fit 64 bits |
| Comparison.CloseAliases | tests/unit/comparison.cpp:38-41 | a pair that aliases, and a witness that closeness is not transitive |
| Printer.Stream.PutBytes | tests/unit/comparison.cpp:158-160 | appends the length in parentheses and the bytes |
| Printer.Stream.PutValue | tests/unit/comparison.cpp:170-224 | appends exactly the text of the tree the value means |
| Printer.PrintNatIff | tests/unit/comparison.cpp:158-160 | the text of a number is its decimal text (digits, no zero in front, that value) and nothing else is |
| Printer.PrintIntIff | tests/unit/comparison.cpp:189-215 | with a minus sign in front exactly for negative numbers |
| Printer.ScalarTexts | tests/unit/comparison.cpp:189-215 | the text of each kind of scalar |
| Printer.LeafTexts | tests/unit/comparison.cpp:173-179 | the texts of decimals, bytes, and lists without items |
| Printer.ListTexts | tests/unit/comparison.cpp:183-188 | the text of a list: its kind, its count, its items |
| Printer.EntryText | tests/unit/comparison.cpp:226-228 | the text of an entry |
| Printer.Stream.PutTable | tests/unit/comparison.cpp:162-168 | appends the count and the text of every entry in order |
| Printer.Stream.PutEntry | tests/unit/comparison.cpp:226-228 | appends key and value |
| Parser.ValueInverted | tests/unit/comparison.cpp:170-224 | the parser reads back any printed value and stops where its text ends, whatever follows that is empty or starts with a space |
| Parser.EntryInverted | tests/unit/comparison.cpp:226-228 | the same for entries |
| Parser.EntriesInverted | tests/unit/comparison.cpp:162-168 | the same for the counted lists of tables |
| Parser.ItemsInverted | tests/unit/comparison.cpp:183-188 | the same for the counted lists of arrays |
| Parser.BytesInverted | tests/unit/comparison.cpp:158-160 | length-prefixed bytes are read back whatever they contain and whatever follows |
| Parser.IntInverted | tests/unit/comparison.cpp:189-215 | decimal numbers of either sign are read back |
| Parser.TextDeterminesValue | tests/unit/comparison.cpp:158-228 | texts are equal if and only if the values are, even inside longer texts |
| Parser.BuildPrintParse | tests/unit/comparison.cpp:170-224 | from a tree to memory to text and back to the same tree |
| TableObject.Table.FromEntries | include/rmqcxx/Table.hpp:48-52 | a new buffer with the entries, counted and pointed at |
| TableObject.ConstructedMeansItsEntries | include/rmqcxx/Table.hpp:48-52 | a new table has all its entries, in order, in a fresh buffer, counts and views them, and means what they mean |
| TableObject.Table.Copy | include/rmqcxx/Table.hpp:62-64 | a new buffer with the same entries; the source is unchanged |
| TableObject.Table.Move | include/rmqcxx/Table.hpp:69-71 | the buffer changes hands |
| TableObject.Table.Assign | include/rmqcxx/Table.hpp:76-81 | as copying, with the old buffer freed or written over, as the vector chooses; self-assignment keeps the table |
| TableObject.Table.AssignMoved | include/rmqcxx/Table.hpp:86-91 | as moving, with the old buffer freed; to itself, the table views whatever the vector is left with |
| TableObject.TablesViewThemselves | include/rmqcxx/Table.hpp:48-91 | after any sequence of constructions, copies, moves, assignments and destructions, every table not moved from counts its own entries and points at its own buffer, and no two tables share one |
| TableObject.ViewsItselfIff | include/rmqcxx/Table.hpp:69-91 | in every reachable state a table's view is that of its own vector if and only if it was not moved from since it was last given contents, or is a null view |
| TableObject.MovedFromViewsAnother | include/rmqcxx/Table.hpp:69-91 | in every reachable state a moved-from table has no buffer, and unless its view is null, views the buffer of another table or one that is gone |
| TableObject.ConstructedLeadsElsewhere | include/rmqcxx/Table.hpp:48-52 | a table made from live entries does not lead back to its own buffer |
| TableObject.CopyMeansTheSame | include/rmqcxx/Table.hpp:62-64 | a copy means what its source means, never leads to itself, and leads to the source's top-level buffer if and only if the source leads there itself |
| TableObject.AssignMeansTheSame | include/rmqcxx/Table.hpp:76-81 | after an assignment, with the target's buffer replaced or written over, both tables mean what the source meant, if the source does not lead into that buffer |
| TableObject.AssignKeepsAliveIff | include/rmqcxx/Table.hpp:76-81 | when the target's buffer is replaced, both tables can still be read if and only if the source does not lead into that buffer |
| TableObject.OverwrittenMayBeUnharmed | include/rmqcxx/Table.hpp:76-81 | when it is written over, a source may lead into it and be unharmed |
| TableObject.StepKeepsInv | include/rmqcxx/Table.hpp:48-91 | one operation on tables keeps all of this |
| TableScope.Scope.Run | include/rmqcxx/Table.hpp:48-91 | programs over objects of the class behave as the programs the theorems are about |
| Durations.TimeValueMicros | include/rmqcxx/util.hpp:63-70 | for any count and period, a normalized pair worth the duration truncated toward zero to microseconds |
| Durations.DurationValueMicros | include/rmqcxx/util.hpp:77-80 | reading any `timeval` in microseconds is exact |
| Durations.CastIff | include/rmqcxx/util.hpp:63-80 | a cast gives the ticks that leave less than one, of the sign of the time; no other count does |
| Durations.RoundTripTruncates | include/rmqcxx/util.hpp:63-80 | duration to `timeval` to microseconds is truncation toward zero |
| Durations.RoundTripMonotone | include/rmqcxx/util.hpp:63-80 | and keeps order, even between durations of different periods |
| Durations.RoundTripIdentity | include/rmqcxx/util.hpp:63-80 | the other composition is the identity exactly on normalized pairs |
| DurationSplit.SplitExactIff | include/rmqcxx/Connection.hpp:509-510 | for which periods casting the two parts separately is exact on all normalized pairs, both directions |
| DurationSplit.SplitLosesAtMostATick | include/rmqcxx/util.hpp:77-80 | for any period the separate casts lose one tick at most, toward zero |
| DurationSplit.TwoThirdsLosesATick | include/rmqcxx/util.hpp:77-80 | a pair and a period for which a tick is lost |
| Budget.BudgetClosedForm | include/rmqcxx/Connection.hpp:314-321 | the budget after any clock readings: zero for ever after a backward reading, else the time-out less everything charged, at least zero |
| Budget.BudgetShrinks | include/rmqcxx/Connection.hpp:318-328 | the budget never grows from turn to turn |
| Budget.BudgetWithinDeadline | include/rmqcxx/Connection.hpp:318-328 | a wait that may still take time may not pass the deadline |
| Budget.SlowFramesDrainBudget | include/rmqcxx/Connection.hpp:318-328 | if every discarded frame costs d, the k-th budget is at most the time-out less d k (k+1) / 2 |
| Budget.BudgetIsTimeLeftIff | include/rmqcxx/Connection.hpp:321 | exactly when the budget is the time really left |
| Budget.BudgetChargedTwice | include/rmqcxx/Connection.hpp:321 | a run in which it is not |
| Budget.SecondWaitGrows | include/rmqcxx/Connection.hpp:656-666 | the second time-out is the first plus the time already waited, in microseconds, or zero |
| Budget.TotalWaitAtMostTriple | include/rmqcxx/Connection.hpp:644-667 | both waits together take at most three times the limit |
| Budget.TotalWaitCanTriple | include/rmqcxx/Connection.hpp:644-667 | and can take as much |
| Budget.IntendedTotalWaitFits | include/rmqcxx/Connection.hpp:656-666 | with the subtraction the other way round both waits fit in the limit |
| Budget.TotalWaitFitsIff | include/rmqcxx/Connection.hpp:656-667 | as written, both waits are sure to fit if and only if the first took no time |
| Consume.Connection.ConsumeImpl | include/rmqcxx/Connection.hpp:637-713 | one attempt, with any answers and any callbacks, by value or by reference, throwing or not: the library calls, time-outs, ownership changes, callback and release it logs, and its result or exception |
| ConsumeOutcomes.ReturnsFalseIff | include/rmqcxx/Connection.hpp:644-700 | an attempt returns false exactly on an empty delivery, a time-out of the first wait, or one of the second |
| ConsumeOutcomes.ReturnsTrueIff | include/rmqcxx/Connection.hpp:646-688 | it returns true exactly when something was brought and its callback did not throw |
| ConsumeOutcomes.ThrowsUserExceptionIff | include/rmqcxx/Connection.hpp:646-688 | when a callback's exception comes out |
| ConsumeOutcomes.ThrowsSocketExceptionIff | include/rmqcxx/Connection.hpp:702-703 | exactly on a socket error |
| ConsumeOutcomes.ThrowsFrameStatusIff | include/rmqcxx/Connection.hpp:668-675 | exactly on another status of the second wait |
| ConsumeOutcomes.ThrowsFrameExceptionIff | include/rmqcxx/Connection.hpp:676-695 | exactly on a frame that is no method, or an unknown one |
| ConsumeOutcomes.ThrowsChannelCloseIff | include/rmqcxx/Connection.hpp:685-690 | exactly when the channel is closed while waiting or reading, and with which number |
| ConsumeOutcomes.ThrowsConnectionCloseIff | include/rmqcxx/Connection.hpp:685-693 | exactly when the connection is |
| ConsumeOutcomes.ThrowsLibraryExceptionIff | include/rmqcxx/Connection.hpp:683-686 | exactly when reading a returned message fails in the library |
| ConsumeOutcomes.ThrowsRpcExceptionIff | include/rmqcxx/Connection.hpp:705-711 | exactly on all other answers |
| ConsumeOutcomes.OneOfThree | include/rmqcxx/Connection.hpp:646-711 | all answers bring something, time out or fail |
| ConsumeOutcomes.OnlyOneOfThree | include/rmqcxx/Connection.hpp:646-711 | and only one of these, in one way |
| ConsumeOutcomes.AttemptLibraryCalls | include/rmqcxx/Connection.hpp:639-686 | all calls of the library in an attempt, in order, with their limits and channel |
| ConsumeOutcomes.LoggedSecondWait | include/rmqcxx/Connection.hpp:656-667 | the limit of any second wait in the log: none without a limit, else exactly what line 663 makes of the first |
| ConsumeOutcomes.UntilDeliveryByValue | include/rmqcxx/Connection.hpp:643-651 | a callback by value owns the envelope when it runs |
| ConsumeOutcomes.UntilDeliveryByReference | include/rmqcxx/Connection.hpp:643-651 | for one by reference the variable does, until it is destroyed |
| ConsumeOutcomes.UntilReturnedByValue | include/rmqcxx/Connection.hpp:683-687 | the same for a returned message, after its moves |
| ConsumeOutcomes.UntilReturnedByReference | include/rmqcxx/Connection.hpp:683-687 | and by reference |
| Consume.Connection.AfterUnexpectedState | include/rmqcxx/Connection.hpp:654-697 | the wait for a frame and the dispatch on its kind |
| Consume.Connection.AfterReturn | include/rmqcxx/Connection.hpp:683-688 | reading a returned message and handing it on |
| Consume.Connection.CallByValue | include/rmqcxx/Connection.hpp:324 | the wrapper around the wanted callback: it owns its argument while the callback runs |
| Consume.Connection.ConsumeTimed | include/rmqcxx/Connection.hpp:313-330 | the timed loops run as the recursive definition of their runs says |
| Consume.Connection.ConsumeBlocking | include/rmqcxx/Connection.hpp:348-357 | so do the blocking loops |
| FirstWanted.AttemptViews | include/rmqcxx/Connection.hpp:637-713 | an attempt runs a callback exactly when it got something wanted, with that, once |
| FirstWanted.CallbackRunsIff | include/rmqcxx/Connection.hpp:650-686 | which callback runs, and with what, in terms of the answers; one at most |
| FirstWanted.BlockingLoopTimeouts | include/rmqcxx/Connection.hpp:348-357 | a blocking loop waits without a limit, once for each event up to the one it stops at |
| FirstWanted.TimedLoopEndsAtFirstStop | include/rmqcxx/Connection.hpp:313-330 | for every script of answers a timed loop ends at the first wanted event, time-out or error, with its outcome and callback, and leaves the later answers alone |
| FirstWanted.TrueExactlyWhenCalledBack | include/rmqcxx/Connection.hpp:381-398 | with callbacks that do not throw, true is returned exactly when the callback ran, and it ran at most once |
| FirstWanted.BlockingLoopEndsAtFirstStop | include/rmqcxx/Connection.hpp:416-425 | a blocking loop ends at the first wanted event or error; time-outs and other events are passed over |
| FirstWanted.BlockingLoopEnds | include/rmqcxx/Connection.hpp:484-493 | it ends if the script has a wanted event before any error, after one attempt for each event up to it |
| FirstWanted.TimedLoopTimeouts | include/rmqcxx/Connection.hpp:449-466 | the j-th attempt waits with the budget left by the first j clock readings, cut to microseconds |
| ConsumeOwnership.AttemptBalances | include/rmqcxx/Connection.hpp:637-713 | on every path each raw structure has one owner at a time, what the callback did not keep is destroyed once, and the buffers are released only then |
| ConsumeOwnership.ReleasedOnceAndLast | include/rmqcxx/Connection.hpp:639-641 | the buffers are released once, as the last event |
| ConsumeOwnership.ReturnedBalances | include/rmqcxx/ReturnedMessage.hpp:46-48 | a returned message through all its moves, including a failing read |
| ConsumeOwnership.TimedLoopBalances | include/rmqcxx/Connection.hpp:313-330 | the same over a whole timed loop |
| ConsumeOwnership.BlockingLoopBalances | include/rmqcxx/Connection.hpp:348-357 | and over a whole blocking loop |
| Ownership.AMQPStruct.constructor | include/rmqcxx/AMQPStruct.hpp:45 | a new object owns |
| Ownership.AMQPStruct.Move | include/rmqcxx/AMQPStruct.hpp:55 | the new object owns, the source does not |
| Ownership.AMQPStruct.Assign | include/rmqcxx/AMQPStruct.hpp:65-70 | the same for assignment; after self-assignment the object owns nothing |
| Ownership.AMQPStruct.Destroy | include/rmqcxx/Envelope.hpp:51-54 | destroys the raw structure exactly when owned |
| Ownership.DestroyedAtMostOnce | include/rmqcxx/AMQPStruct.hpp:45-70 | over every program that moves from owners only, nothing is destroyed twice or while owned, and created = destroyed + dropped by assignment + owned |
| Ownership.AllDestroyedAtTheEnd | include/rmqcxx/Message.hpp:49-52 | when all variables are gone, everything not dropped was destroyed once |
| Ownership.NothingLeaksIff | include/rmqcxx/AMQPStruct.hpp:65-70 | then everything created was destroyed if and only if the program never assigned to an owner |
| Ownership.AssigningToAnOwnerLeaks | include/rmqcxx/AMQPStruct.hpp:65-70 | a program that leaks |
| Ownership.MoveSafeIff | include/rmqcxx/AMQPStruct.hpp:55 | in any state such programs reach, one more move construction is safe if and only if the source owns, or what it held was dropped |
| Ownership.AssignSafeIff | include/rmqcxx/AMQPStruct.hpp:65-70 | and one more move assignment if and only if the source owns, or is the target, or what it held was dropped or is what the target owns |
| Ownership.MovingTwiceDestroysTwice | include/rmqcxx/AMQPStruct.hpp:55 | two moves from one variable end in a double destruction |
| Ownership.Scope.Run | include/rmqcxx/AMQPStruct.hpp:45-70 | programs over objects of the class behave as the programs the theorems are about |
| Lifecycle.Connect | include/rmqcxx/Connection.hpp:84-122 | what the constructor makes the library see, and that it leaves a connection exactly when everything including the login went well, else throws |
| Lifecycle.ConstructorThrowsIff | include/rmqcxx/Connection.hpp:89-121 | which exception each failing answer gives |
| Lifecycle.ConstructorCleansUp | include/rmqcxx/Connection.hpp:92-121 | a failed constructor with a socket closes exactly once and destroys last; without one it only destroys; a successful one does neither |
| Lifecycle.ConstructorStages | include/rmqcxx/Connection.hpp:92-115 | how far it gets on which answers |
| Replies.PassesIff | include/rmqcxx/Connection.hpp:590-592 | a reply passes exactly when it is normal |
| Replies.ReplyThrowsIff | include/rmqcxx/Connection.hpp:593-607 | which exception each other reply is turned into |
| Lifecycle.Connection.Rpc | include/rmqcxx/Connection.hpp:568-576 | call, fetch of its reply, and release exactly when asked and normal; throws as the reply says |
| Lifecycle.Connection.Close | include/rmqcxx/Connection.hpp:540-548 | closes a handle it has, swallowing exceptions |
| Lifecycle.Connection.Destroy | include/rmqcxx/Connection.hpp:184-186 | closes, then destroys, a handle it has |
| Lifecycle.OpenChannelOn | include/rmqcxx/Channel.hpp:51-57 | a channel exists exactly when its open got a normal reply |
| Lifecycle.Channel.Rpc | include/rmqcxx/Channel.hpp:247-253 | as on the connection, and always a release on the channel |
| Lifecycle.Channel.Destroy | include/rmqcxx/Channel.hpp:62-71 | closes unless moved from |
| Lifecycle.Channel.Move | include/rmqcxx/Channel.hpp:81-83 | the new object will close, the source will not |
| LifecycleScope.Scope.Run | include/rmqcxx/Channel.hpp:51-83 | programs over objects of both classes behave, and are logged, as the programs the theorems are about |
| LifecycleProofs.EveryProgramIsAccepted | include/rmqcxx/Connection.hpp:84-122 | every program of constructions, moves, calls and scope exits, with any replies, makes a trace a strict monitor accepts; scopes can always be left, and then every handle is gone |
| LifecycleProofs.EveryHandleEndsWell | include/rmqcxx/Connection.hpp:540-548 | each handle is destroyed once, as its last event, closed at most once, and every channel opened with a normal reply was closed exactly once, before the connection was closed and destroyed |
| LifecycleProofs.TheEndIsInOrder | include/rmqcxx/Channel.hpp:62-71 | at any time in any program: nothing is sent after the connection's close, and nothing happens to a handle after its destruction |
| LifecycleProofs.CallsAreAnswered | include/rmqcxx/Connection.hpp:568-576 | in any program whose callables make one remote call, nothing comes between a remote call and the fetching of its own reply |
| LifecycleProofs.AcceptedTally | include/rmqcxx/Channel.hpp:51-71 | what acceptance means: counts of closes, destructions, opens and channel closes for each state of a handle |
| NestedRpc.Perform | include/rmqcxx/Connection.hpp:567-576 | any callable, sending, nesting, catching and throwing in any order, runs as the recursive definition says, including the fetch after it threw |
| NestedRpc.NestedCallsAreAnsweredIff | include/rmqcxx/Connection.hpp:568-576 | each sending is followed by its own reply if and only if every callable that gets to run, at any depth, sends last |
| NestedRpc.NestingAfterSendingIsNotAnswered | include/rmqcxx/Connection.hpp:568-576 | a call within a call, all replies normal, for which this fails |
| NestedRpc.UncaughtFailuresDecide | include/rmqcxx/util.hpp:130-133 | abnormal replies and exceptions thrown, less those caught, at any depth, decide the end: none left returns, one throws, two end the program |
| NestedRpc.TerminatesIff | include/rmqcxx/Connection.hpp:570-575 | a call ends the program if and only if some call that gets to begin, at any depth, has a callable that ends in an exception and an abnormal reply of its own |
| NestedRpc.ThrowingCanTerminate | include/rmqcxx/Connection.hpp:570-575 | a callable and a reply that end the program |
| NestedRpc.SendingNeverTerminates | include/rmqcxx/Connection.hpp:568-576 | a callable that only sends never ends the program |
| NestedRpc.CallsRelease | include/rmqcxx/Channel.hpp:247-253 | unless the program ends: every call begun, at any depth, fetches one reply, and on a channel releases there exactly once; calls on the connection release as often as they asked to and their own reply was normal |
| NestedRpc.EventsBelong | include/rmqcxx/Connection.hpp:568-576 | every event at any depth carries its own call's name, reply and channel |
| NestedRpc.SendsInOrder | include/rmqcxx/Connection.hpp:575 | a callable sends exactly what its actions send, in order, as far as it gets |
| NestedRpc.LastFailureComesOut | include/rmqcxx/util.hpp:130-133 | the exception that comes out of a call is the last that was thrown in it, at any depth |
| NestedRpc.RepliesFailAsFetched | include/rmqcxx/Connection.hpp:571 | those from replies are the abnormal replies of the trace, call by call and in order |
| NestedRpc.EveryReleaseIsLast | include/rmqcxx/Channel.hpp:247-253 | however it ends, after any call at any depth released its buffers nothing more is seen of it or of the calls it made |
| AdvConsumer.Consumer.Receive | examples/advconsumer.cpp:142-149 | takes the oldest message, or reports that there is none |
| AdvConsumer.Consumer.Acknowledge | examples/advconsumer.cpp:151-154 | queues the id |
| AdvConsumer.Consumer.AckOne | examples/advconsumer.cpp:104-110 | acknowledges the oldest id and removes it only if that did not throw |
| AdvConsumer.Consumer.Push | examples/advconsumer.cpp:101-103 | queues the delivered message |
| AdvConsumer.System.Exec | examples/advconsumer.cpp:86-126 | each step of worker, threads and `stop` changes the objects as the transition system says |
| AdvConsumer.System.Run | examples/advconsumer.cpp:172-185 | so does every schedule |
| ConsumerProofs.NothingLostWhileConnected | examples/advconsumer.cpp:101-109 | in every reachable state of a connection, messages handed out followed by those queued are those delivered, in order, and each delivered id is queued, held, ack-queued or acknowledged: exactly one of these |
| ConsumerProofs.MessagesAreAsDelivered | examples/advconsumer.cpp:101-103 | against the schedule alone: the messages delivered on a connection are those its steps deliver, tag and body, and every message queued or held, on any connection, is one that was delivered so |
| ConsumerProofs.DeliveriesDiffer | examples/advconsumer.cpp:101-103 | so an id tells which message, body included |
| ConsumerProofs.StopsSoon | examples/advconsumer.cpp:128-130 | after `stop` the worker takes five more steps at most, makes no connection it was not about to make and receives no message it was not waiting for |
| ConsumerProofs.WorkerCanStep | examples/advconsumer.cpp:89-124 | and until it has stopped it can always take one |
| ConsumerProofs.WorkerLooksAtRun | examples/advconsumer.cpp:89-100 | it connects and waits only while it is to run, and stops only when not |
| ConsumerProofs.ExceptionsReset | examples/advconsumer.cpp:112 | any exception begins the reset |
| ConsumerProofs.ResetClearsBoth | examples/advconsumer.cpp:115-122 | which clears the messages, then the ack queue, before anything else |
| ConsumerProofs.NoIdQueuedTwice | examples/advconsumer.cpp:151-154 | over all connections, no id of a delivery enters the ack queue twice |
| ConsumerProofs.AcksFollowTheQueue | examples/advconsumer.cpp:104-110 | ids acknowledged, then those waiting, are those queued since the last reset, in order |
| ConsumerProofs.StaleAcksAreThoseCarried | examples/advconsumer.cpp:112-123 | stale ids acknowledged, queued or held are never more than the processing threads, and on a connection exactly as many as threads held a message across the reset; if none did, only ids of this connection are acknowledged |
| ConsumerProofs.StaleAckPossibleIff | examples/advconsumer.cpp:119-122 | a running connection can come to acknowledge a stale id if and only if a thread held a message across the reset |
| ConsumerProofs.StaleAckHappens | examples/advconsumer.cpp:119-122 | a reachable state with a message held across the reset, from which a stale id is acknowledged |
| ConsumerProofs.AckedOnItsTurn | examples/advconsumer.cpp:104-110 | without an exception an id with k before it is acknowledged by the (k+1)th ack step and stays queued until then |
| ConsumerProofs.AckedWithinTurns | examples/advconsumer.cpp:100-111 | hence within k+1 turns of the worker's loop, if the worker is not stopped |

## Left out

- Floating-point fields and field kinds compared only by `memcmp`: equality and text of floats are about NaN and rounding.
- The numeric values of the kind tags: they come from rabbitmq-c's amqp.h, which is not part of this model; the characters of the AMQP field-table grammar stand in.
- Integer widths of scalar fields: values are unbounded, which only widens the inputs.
- `FieldValue(const char*)`: it keeps a pointer into a temporary string.
- Stream manipulators: numbers are printed with default formatting.
- Equality of properties, messages, methods, returns and frames in `comparison.cpp`: conjunctions of the parts above.
- 64-bit overflow of durations.
- Pairs of times whose difference overflows 64 bits in the `timeval` comparison (`DistanceFits`): the result is undefined there.
- Structures that lead back into themselves: the loops over them do not end.
- `TableObject.AssignMeansTheSame`: for a buffer written over, does not say exactly when both tables keep their meaning, because that depends on how much of the buffer each view into it counts (`OverwrittenMayBeUnharmed`).
- `TableObject.Table.AssignMoved`: to itself, does not model a vector left with other contents than all its entries or none, because those are what vectors do.
- `Lifecycle.Connection.Rpc`: does not model callables that send more or less than once, because `NestedRpc` does.
- Sockets, login, frame encoding and the broker: in rabbitmq-c; their answers are arbitrary.
- A claim that a timed consume loop ends by its deadline: it is false, for with budget zero it goes on as long as unwanted frames arrive.
- `Consume.Connection.ConsumeImpl`: does not model elision of the `ReturnedMessage` parameter, because one move more or less changes no owner in the end.
- Exception messages, contexts and the class hierarchy: exceptions are their kind.
- `Exchange`, `Queue`, the other constructors of `Connection`, `setRpcTimeout`: they hand their arguments on.
- Moving a connection while open channels refer to it, and calls on moved-from objects: excluded by what the steps require, as the classes do not support them.
- `AdvConsumer.System.Exec`: does not model the C++ memory model, because every locked section, and the unlocked push, is one atomic step; there is one `start()`, and the parts of setting up a connection are one step that succeeds or throws.
- The broker's choice of delivery tags: any tags, but none twice on one channel, as AMQP 0-9-1 has it.
- Idle time-outs of the processing threads: a thread that has left its loop just takes no more steps.
