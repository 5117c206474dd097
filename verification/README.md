# Verification of the SQLx binding and the buffers beside it

A Dafny model of the hard parts of Moon's SQLx binding and of the Lua, JSON and buffer code it stands
on, with proofs about every input, every run and every interleaving. `dafny verify dfyconfig.toml`
checks all of it. Paths below are relative to the repository root.

## What is modelled

**Response registry** (`Registry*.dfy`). Asynchronous workers publish replies and Lua waiters take them,
through 32 sharded maps of weak references to slots owned by leases. A transition system has one step
for each critical section, so a publish or take holds the slot it found while the lease is dropped and
the key is registered again. It is proved linearizable to an atomic map from keys to waiting, ready or
consumed: an operation that still holds a slot when its lease dies takes effect at that drop. Fields
named as history record what has happened; no step depends on them. `RegistryClasses.dfy` holds the same
critical sections as methods of shared objects, each proved to do what the atomic map does.

**Connection actor** (`Retry.dfy`, `Backend.dfy`, `Handler.dfy`, `HandlerProofs.dfy`,
`HandlerAnswers.dfy`, `Queue.dfy`, `Names.dfy`). The database is an environment that answers each await with success, an error or silence
up to the request's deadline, and may hide that a command was carried out. Over it run the transaction,
the classification of errors and the reconnect policy, as functions and as the methods of the actor,
proved equal. The request queue with its shared counter and the table of named connections are
transition systems whose steps are single atomic accesses.

**PostgreSQL dates and times** (`Bytes.dfy`, `Calendar.dfy`, `PgDateTime.dfy`). Day numbers to civil
dates and back, and the text printers, each with a reader that recovers the value.

**Lua and JSON** (`LuaTables.dfy`, `LuaStack.dfy`, `Json*.dfy`). Lua tables are lists of entries in
the order of iteration with any legal border, in a heap that may be cyclic. On it stand the array
detector and the table iterators of the stack machine, the JSON encoder that writes into a byte vector
and takes text back, the converter that builds a JSON value without text, and the builder that pushes a
JSON value onto the Lua stack. The reference is a reader of JSON text written after RFC 8259.

**Userdata** (`Userdata*.dfy`). Rust values owned by Lua userdata, when any allocation may fail, and any
allocation may first collect garbage and run finalizers. These are arbitrary Lua code: they may create,
close and give up userdata of the same type, at whose allocations finalizers run again, to any depth.

**Byte buffer and RESP** (`Buffer.dfy`, `Resp.dfy`). The buffer, with compaction and regrowth of its
array, refines a tape that is written at its end and read at a cursor; Redis commands written into it
are read back by a reader of the Redis serialization protocol ("Arrays" and "Bulk strings").

## Where the code and its promise differ

* Each value handed to a userdata is to be dropped once. It is never dropped twice (`LifeIsSound`). But the
  metatable is looked up only once, before the allocations that build it: when one of them runs a finalizer that
  creates the first userdata of the same type, the metatable that one got is replaced in the registry, its
  finalizer no longer recognises it, and its value is never dropped (`ReentryLeaks`). Whatever finalizers do, a
  creation, or a run of them, leaves every value accounted for exactly when the metatable is registered before it
  begins and the Lua state is not being closed (`CreationIsAccountedExactly`, `RunsAreAccountedExactly`). A userdata
  that a finalizer creates while the state is closing is never finalized; closing drops everything exactly when
  finalizers create nothing meanwhile (`ShutDownDropsAllExactly`). Lives in which the first creation of a type is
  not entered again, and the end creates nothing, drop each value exactly once (`LifeDropsAll`).
* The encoder writes object keys without escapes. A written key reads back as itself exactly when it is
  UTF-8 and needs no escape (`NameReadsBackExactly`), and a key with a quotation mark gives text that does
  not parse (`KeysAreNotEscaped`). For whole values: where the direct converter gives a value, and the names in each
  table are distinct, encoding compactly and parsing gives the same value exactly when no name that is written, at
  any depth, needs an escape (`SlowIsDirectExactly`).
* Of an entry whose key is neither string nor integer the encoder writes nothing but its place. The direct
  converter refuses every value in which it meets one. The text of the value is JSON exactly when each such entry,
  at any depth, is the only one of its table, which then reads as an empty object; beside other entries it leaves a
  stray comma (`OddKeysExactly`). The round trips are therefore proved for values without keys of these two kinds.
* An error reply that keeps the connection means that nothing was changed, for exactly the requests that are
  transactions or hand at most one statement to the driver (`ErrorChangesNothingExactly`); a batch, or the SQL
  of a query or execute on SQLite, that holds several can leave some of the first of them (`ErrorLeavesPart`).
* A reply says that nothing was executed only when that is so (`NotExecutedExactly`). It can be relied on to
  say so for exactly the requests that are not transactions without a statement or with a first statement
  that does not bind (`NotExecutedIsSaidExactly`): for those a failed rollback or commit is reported as a
  disconnect.
* The announced length of a Redis command is its number of arguments, so a command with `__redis` tables
  reads back exactly when these spread out to as many bulk strings (`ArgumentsReadBackExactly`). A marked
  table that the array detector does not recognise is announced and writes nothing
  (`UnlistedTableWritesNothing`).
* A table with keys 1 to n is not recognised as an array when iteration starts at 1 and does not end at n
  (`SequenceIsDetected`). Sequences of one or two are always recognised, and of every greater length some
  are not (`SequencesAreDetectedExactly`); the encoder and the converter turn those into objects
  (`MissedSequenceIsObject`).

## Model

| member | source | states |
|---|---|---|
| ResponseTheorems.Linearizable | crates/libs/lib-lualib/src/sqlx_response.rs:42-122 | in every run the log of effects is a history of the atomic map ending in the present cells, holds each returned operation once with its result, and keeps real time |
| ResponseTheorems.RealTimeIsKept | crates/libs/lib-lualib/src/sqlx_response.rs:59-81 | an operation that returned before another was called takes effect before it |
| ResponseTheorems.ResultsStand | crates/libs/lib-lualib/src/sqlx_response.rs:63-81 | what an operation returned is never revised later in the run |
| ResponseTheorems.HoldersCanBeOrdered | crates/libs/lib-lualib/src/sqlx_response.rs:103-122 | a drop can always linearize the operations that hold its slot, so history never blocks a step |
| ResponseTheorems.InExactlyOnePlace | crates/libs/lib-lualib/src/sqlx_response.rs:63-122 | a published value is with its publisher, in one slot, with one dropped lease, delivered to one take, or destroyed, and in exactly one of these |
| ResponseTheorems.FilledSlotIsLeased | crates/libs/lib-lualib/src/sqlx_response.rs:63-73 | a filled slot has a live lease and is active |
| ResponseTheorems.NothingLeaks | crates/libs/lib-lualib/src/sqlx_response.rs:103-122 | with all leases gone and nothing in progress no map entry and no value is left |
| ResponseTheorems.AtomicMapDelivers | crates/libs/lib-lualib/src/sqlx_response.rs:42-122 | the life of a key in the atomic map: registered, published to, taken and freed once each, everything else refused without effect |
| ResponseTheorems.OperationsCanGoOn | crates/libs/lib-lualib/src/sqlx_response.rs:63-81 | in every run a publish or take in progress has an enabled step, unless a drop holds the lock of its shard |
| ResponseTheorems.LocksAreLetGo | crates/libs/lib-lualib/src/sqlx_response.rs:103-122 | a drop that holds a shard lock can always go on to let it go |
| ResponseInvariant.NextKeepsInv | crates/libs/lib-lualib/src/sqlx_response.rs:42-122 | every critical section keeps the agreement of entries, leases, slots, operations, history and places |
| ResponseRegistry.SharedSlot.Publish | crates/libs/lib-lualib/src/sqlx_response.rs:67-72 | fills an active, empty slot and changes no other |
| ResponseRegistry.Registry.Register | crates/libs/lib-lualib/src/sqlx_response.rs:42-57 | does what the atomic map does, with a fresh slot for a free key and no change for a key in use |
| ResponseRegistry.Registry.RegisterSession | crates/libs/lib-lualib/src/sqlx_response.rs:37-57 | the same for an owner and session, whose hash names the shard |
| ResponseRegistry.Registry.Find | crates/libs/lib-lualib/src/sqlx_response.rs:59-61 | finds exactly the live entry of a key and takes one more reference to it |
| ResponseRegistry.Registry.Publish | crates/libs/lib-lualib/src/sqlx_response.rs:63-73 | lookup and slot step together answer and act as the atomic map |
| ResponseRegistry.Registry.Take | crates/libs/lib-lualib/src/sqlx_response.rs:75-81 | takes a ready value once and leaves the key consumed |
| ResponseRegistry.Registry.Counts | crates/libs/lib-lualib/src/sqlx_response.rs:83-100 | the numbers of keys waiting and of keys ready, over all shards |
| ResponseRegistry.Lease.Drop | crates/libs/lib-lualib/src/sqlx_response.rs:103-122 | removes the key, deactivates the slot and hands back what nobody took |
| Backoff.DelaysDouble | crates/libs/lib-lualib/src/sqlx_retry.rs:21-28 | the k-th consecutive failure sets the delay to min(initial * 2^(k-1), max) and the retry time to that much later |
| Backoff.OutageDelays | crates/libs/lib-lualib/src/sqlx_retry.rs:21-28 | the delay and retry time after any series of failures since the last success |
| Backoff.AdvertisesLeastWait | crates/libs/lib-lualib/src/sqlx_retry.rs:35-41 | the advertised milliseconds are the least whole number after which the cooldown is over |
| Backoff.ReconnectBackoff.Failed | crates/libs/lib-lualib/src/sqlx_retry.rs:21-28 | the fields after a failure are those of the specification |
| HandlerProofs.RunIsSpaced | crates/libs/lib-lualib/src/lua_sqlx.rs:919-945 | over every run no connect attempt starts before the delay of the failure before it is over |
| HandlerProofs.OutageLasts | crates/libs/lib-lualib/src/lua_sqlx.rs:919-945 | a series of failures lasts at least the sum of the delays between them |
| HandlerProofs.TransactionIsAtomic | crates/libs/lib-lualib/src/lua_sqlx.rs:555-652 | whatever the environment answers, all statements are committed or none; success means all, a plain error none, with the connection clean unless the error is fatal |
| HandlerProofs.TransactionReplies | crates/libs/lib-lualib/src/lua_sqlx.rs:932-997 | the same seen through the actor: a success reply means all committed, any other reply that keeps the connection means nothing committed |
| HandlerAnswers.TransactionSucceedsExactly | crates/libs/lib-lualib/src/lua_sqlx.rs:555-652 | from a clean connection a transaction succeeds if and only if all queries bind and begin, every statement and commit are answered with success; then all statements are in effect in order |
| HandlerAnswers.TransactionIsDoneExactly | crates/libs/lib-lualib/src/lua_sqlx.rs:555-652 | the same for the reply of an actor that has a connection |
| HandlerAnswers.TransactionFails | crates/libs/lib-lualib/src/lua_sqlx.rs:555-652 | one that fails at a statement is rolled back and ends with that statement's error, a disconnect or silence, as the rollback is answered |
| HandlerAnswers.TransactionErrorIsReplied | crates/libs/lib-lualib/src/lua_sqlx.rs:555-652 | the reply is the failed statement's own error, and the connection is kept unless the error is fatal |
| HandlerAnswers.TransactionCannotBegin | crates/libs/lib-lualib/src/lua_sqlx.rs:555-652 | when begin is not answered with success nothing was submitted and the outcome is that answer |
| HandlerAnswers.QueryReplies | crates/libs/lib-lualib/src/lua_sqlx.rs:437-484 | the reply to a query is its number of rows, too many rows, its error or a timeout, as the answer says |
| HandlerAnswers.ExecuteReplies | crates/libs/lib-lualib/src/lua_sqlx.rs:486-553 | the reply to an execute or a batch, as the answer says |
| HandlerAnswers.SuccessTakesEffect | crates/libs/lib-lualib/src/lua_sqlx.rs:437-553 | answered with success on a clean connection, all statements are in effect and the connection stays as it was |
| HandlerProofs.FatalIsNoRefusal | crates/libs/lib-lualib/src/lua_sqlx.rs:791-824 | the errors after which a connection is dropped are exactly those that the environment's own account calls no refusals |
| HandlerProofs.ErrorThatKeepsTheConnection | crates/libs/lib-lualib/src/lua_sqlx.rs:981-997 | an error reply that keeps the connection has changed nothing, for every transaction and every request that hands at most one statement to the driver |
| HandlerProofs.ErrorChangesNothingExactly | crates/libs/lib-lualib/src/lua_sqlx.rs:803-824 | on every actor and whatever the database answers, an error that keeps the connection has changed nothing, if and only if the request is a transaction or hands at most one statement to the driver |
| HandlerProofs.ErrorLeavesPart | crates/libs/lib-lualib/src/lua_sqlx.rs:486-553 | a request that fails and keeps the connection, a new one too, leaves some of the first of the statements it handed over but never all |
| HandlerProofs.SeveralCanChangeSomething | crates/libs/lib-lualib/src/lua_sqlx.rs:486-553 | for every batch, query or execute of two or more statements there is an actor where it fails, keeps the connection and has changed something |
| HandlerProofs.NotExecutedExactly | crates/libs/lib-lualib/src/lua_sqlx.rs:2295-2301 | a reply says not executed if and only if it is an error other than a disconnect or row limit and no business statement was submitted |
| HandlerProofs.NotExecutedIsSaidExactly | crates/libs/lib-lualib/src/lua_sqlx.rs:830-839 | every error reply with nothing submitted says so, on every actor, if and only if the request is not a transaction that is empty or whose first statement does not bind |
| HandlerProofs.NotExecutedIsNotAlwaysSaid | crates/libs/lib-lualib/src/lua_sqlx.rs:575-588 | for every such transaction there is an actor where it submits nothing, fails, and its reply does not say so |
| HandlerProofs.RunFollows | crates/libs/lib-lualib/src/lua_sqlx.rs:437-652 | the flag for a started execution is up exactly when a statement was submitted, at whichever await the request ends |
| HandlerProofs.ServeKeepsSound | crates/libs/lib-lualib/src/lua_sqlx.rs:803-824 | a connection that is kept has no open transaction, no unread answer, and was never retired |
| HandlerProofs.RunStaysSound | crates/libs/lib-lualib/src/lua_sqlx.rs:898-1008 | the same at every moment of every run |
| HandlerProofs.RunAvoidsRetired | crates/libs/lib-lualib/src/lua_sqlx.rs:991-1003 | over every run no command goes to a connection retired before it |
| HandlerAnswers.CooldownExactly | crates/libs/lib-lualib/src/lua_sqlx.rs:905-917 | a request is told to come back, without effect, if and only if there is no connection and the wait is not over |
| HandlerAnswers.ReconnectsExactly | crates/libs/lib-lualib/src/lua_sqlx.rs:918-979 | without a connection and with the wait over, a request makes exactly one attempt; answered with success it is served as by an actor with a new clean connection, otherwise the reply is the attempt's error |
| HandlerAnswers.WaitIsLeast | crates/libs/lib-lualib/src/lua_sqlx.rs:905-979 | every advertised wait is the least number of milliseconds after which the next attempt is made |
| HandlerAnswers.RunIsNearRetry | crates/libs/lib-lualib/src/lua_sqlx.rs:870-1000 | in every run, whenever the next request comes, the conditions of these three hold |
| Handler.DatabaseHandler.Handle | crates/libs/lib-lualib/src/lua_sqlx.rs:911-997 | one turn of the receive loop: reply, connection, backoff and environment are those of Serve, of which ReconnectsExactly, CooldownExactly and the reply lemmas speak |
| Backend.Connection.RunTransaction | crates/libs/lib-lualib/src/lua_sqlx.rs:555-652 | begin, statements, rollback or commit, with the outcome and effects of Transaction, which succeeds exactly as TransactionSucceedsExactly says |
| Backend.Connection.ExecuteAll | crates/libs/lib-lualib/src/lua_sqlx.rs:563-574 | the loop over the statements stops at the first that fails, and the started flag never falls back |
| Backend.Connection.FetchRows | crates/libs/lib-lualib/src/lua_sqlx.rs:437-484 | rows are counted up to the limit, and one more leaves the answer unread |
| RequestQueue.ServedInOrder | crates/libs/lib-lualib/src/lua_sqlx.rs:898-1008 | finished and executed requests are prefixes of the accepted ones, none accepted twice, at most one in hand |
| RequestQueue.CounterIsExact | crates/libs/lib-lualib/src/lua_sqlx.rs:1444-1464 | the counter is what is queued, in flight, and between an enqueuer's increment and outcome |
| RequestQueue.ClosedMeansDrained | crates/libs/lib-lualib/src/lua_sqlx.rs:1629-1654 | once Closed is reported all that was or ever will be accepted has been finished |
| RequestQueue.TurnedAwayForGood | crates/libs/lib-lualib/src/lua_sqlx.rs:1443-1464 | a request refused as busy or closed, or whose call failed before, is never executed |
| RequestQueue.AcceptedExactly | crates/libs/lib-lualib/src/lua_sqlx.rs:1444-1464 | in every run a send is accepted if and only if no Close was received and fewer messages than the capacity are sent and not received |
| RequestQueue.AdmittedExactly | crates/libs/lib-lualib/src/lua_sqlx.rs:1411-1420 | a call that looks at the flag goes on if and only if no closer has raised it before |
| RequestQueue.LateCallsNeverRun | crates/libs/lib-lualib/src/lua_sqlx.rs:1411-1420 | a call that looks at the flag after it was raised is never accepted and never executed |
| RequestQueue.CloseIsNotForgotten | crates/libs/lib-lualib/src/lua_sqlx.rs:1635-1646 | once the flag is raised a Close has been sent or a closer is about to send it |
| RequestQueue.RequestCanBeSent | crates/libs/lib-lualib/src/lua_sqlx.rs:1411-1464 | in an open channel with a free place a new request that nothing comes in between is accepted |
| RequestQueue.RequestCanBeServed | crates/libs/lib-lualib/src/lua_sqlx.rs:900-998 | an idle handler executes and answers the first request in its queue |
| RequestQueue.CallCanGoOn | crates/libs/lib-lualib/src/lua_sqlx.rs:1411-1464 | a call in progress always has an enabled step |
| RequestQueue.OneClose | crates/libs/lib-lualib/src/lua_sqlx.rs:1635-1645 | at most one Close message is sent to an actor |
| RequestQueue.DrainCanGoOn | crates/libs/lib-lualib/src/lua_sqlx.rs:898-1008 | once a Close was received or the last sender is gone the handler always has a step until it has announced the end |
| RequestQueue.DrainEnds | crates/libs/lib-lualib/src/lua_sqlx.rs:898-1008 | in both kinds of drain each step of the handler leaves it less to do, and nobody gives it more or ends the drain |
| NamedConnections.LookupReadsNewest | crates/libs/lib-lualib/src/lua_sqlx.rs:2254-2281 | an entry of a name is its newest registration, and stays while that is not closing and has senders |
| NamedConnections.LookupFindsNewest | crates/libs/lib-lualib/src/lua_sqlx.rs:2254-2281 | over every run a lookup returns nothing but the newest registration at its read, and returns that one unless it is closing or without senders by the time of the answer |
| NamedConnections.LookupIsRecorded | crates/libs/lib-lualib/src/lua_sqlx.rs:2256-2258 | what a lookup is recorded to have read stays the newest registration of its name at that moment |
| NamedConnections.FoundWasOpen | crates/libs/lib-lualib/src/lua_sqlx.rs:2256-2272 | the actor a lookup returned was not closing at the lookup's check and had senders when it took one |
| NamedConnections.LookupsCanGoOn | crates/libs/lib-lualib/src/lua_sqlx.rs:2256-2283 | a lookup in progress always has an enabled step |
| NamedConnections.ReplacedIsClosed | crates/libs/lib-lualib/src/lua_sqlx.rs:1046-1061 | an actor replaced by a new registration is closing, or the attempt to close it has not begun |
| NamedConnections.CloseIsNotForgotten | crates/libs/lib-lualib/src/lua_sqlx.rs:1046-1061 | an actor that is closing and can still be sent to has been sent its Close, or an attempt is on its way to |
| NamedConnections.EndedCleansUp | crates/libs/lib-lualib/src/lua_sqlx.rs:1001-1007 | an actor that was sent its Close or has no senders can end and clean up, which removes its entry and no other |
| NamedConnections.LookupFailsOnlyOnDead | crates/libs/lib-lualib/src/lua_sqlx.rs:2254-2281 | a lookup gives up only on a registration that was closing or had lost its senders |
| NamedConnections.CleanUpSparesOthers | crates/libs/lib-lualib/src/lua_sqlx.rs:1004-1006 | apart from a new registration an entry is only removed by its own actor's end or a failed lookup of it, when it is no longer open |
| NamedConnections.OneClose | crates/libs/lib-lualib/src/lua_sqlx.rs:1046-1061 | an actor gets at most one Close message, however many close or replace it |
| NamedConnections.AttemptsAreNeverStuck | crates/libs/lib-lualib/src/lua_sqlx.rs:1635-1651 | an attempt to close always holds the sender it still needs |
| Calendar.CivilIsRight | crates/libs/lib-lualib/src/sqlx_pg_datetime.rs:5-17 | for every day number the date is a valid proleptic Gregorian date, and its day number is the one given |
| Calendar.DaysAreRight | crates/libs/lib-lualib/src/sqlx_pg_datetime.rs:5-17 | for every valid date the date of its day number is that date, so the two are inverse |
| Calendar.CivilSuccession | crates/libs/lib-lualib/src/sqlx_pg_datetime.rs:5-17 | day n + 1 is the calendar successor of day n |
| Calendar.Epoch | crates/libs/lib-lualib/src/sqlx_pg_datetime.rs:5-9 | day 0 is 2000-01-01 |
| Calendar.CivilFits | crates/libs/lib-lualib/src/sqlx_pg_datetime.rs:5-17 | no intermediate value leaves 64 bits for any 32-bit day number |
| Calendar.TimestampDaysFit | crates/libs/lib-lualib/src/sqlx_pg_datetime.rs:68-69 | the day number of every 64-bit timestamp fits in 32 bits |
| PgDateTime.DateReadsBack | crates/libs/lib-lualib/src/sqlx_pg_datetime.rs:30-36 | every date is recovered from its text, both infinities and years of any size and sign included |
| PgDateTime.TimeReadsBack | crates/libs/lib-lualib/src/sqlx_pg_datetime.rs:38-59 | a time is accepted exactly from 00:00:00 to 24:00:00 and recovered from its text |
| PgDateTime.TimestampReadsBack | crates/libs/lib-lualib/src/sqlx_pg_datetime.rs:61-74 | a timestamp never fails, is recovered from its text, and is written as UTC exactly when asked to, but for the infinities |
| PgDateTime.TimetzReadsBack | crates/libs/lib-lualib/src/sqlx_pg_datetime.rs:76-93 | accepted exactly for times of the day with offsets below 16 hours; time and offset are both recovered |
| PgDateTime.TimestampIsRfc3339 | crates/libs/lib-lualib/src/sqlx_pg_datetime.rs:61-74 | the UTC form for years 0000 to 9999 fits section 5.6 of RFC 3339 |
| LuaTables.ArrayShapeIsLossless | crates/libs/lib-lua-sys/src/laux.rs:854-918 | a table taken for an array of n has all keys in 1 to n, slot n filled, and its slots are exactly its entries |
| LuaTables.AscendingIsDetected | crates/libs/lib-lua-sys/src/laux.rs:854-918 | a table with keys 1 to n iterated in ascending order is always taken for an array of n |
| LuaTables.SequenceIsDetected | crates/libs/lib-lua-sys/src/laux.rs:885-896 | keys 1 to n in any order are recognised if and only if iteration does not start at 1 without ending at n |
| LuaTables.SequencesAreDetectedExactly | crates/libs/lib-lua-sys/src/laux.rs:884-896 | all sequences of length n are recognised if and only if n is one or two |
| LuaTables.SequenceIsMissed | crates/libs/lib-lua-sys/src/laux.rs:884-896 | for every length from three on a legal table with keys 1 to n that is taken for an object, as 1, 3, 2 is |
| LuaStack.LengthIsKey | crates/libs/lib-lua-sys/src/laux.rs:884-892 | stepping on from the length key is legal whenever the detector does it |
| LuaStack.LuaState.ArraySize | crates/libs/lib-lua-sys/src/laux.rs:854-918 | the detector computes ArrayShape and restores the stack on every exit |
| LuaStack.Pairs.Next | crates/libs/lib-lualib/src/sqlx_lua.rs:473-502 | each entry is returned once, in order, with its key and value on top of an untouched stack |
| LuaStack.Values.Next | crates/libs/lib-lualib/src/sqlx_lua.rs:503-526 | the values at 1 to len in order, nil for a hole, and the height restored at the end |
| JsonWriter.Writer.EncodeOne | crates/libs/lib-lualib/src/lua_json.rs:93-148 | writes exactly the specified text, and on an error too leaves all earlier bytes first |
| JsonWriter.Writer.EncodeArray | crates/libs/lib-lualib/src/lua_json.rs:167-198 | the same when a hole makes it take back its text and write an object instead |
| JsonWriter.Writer.EncodeObject | crates/libs/lib-lualib/src/lua_json.rs:200-258 | the same with an empty object turned into an empty array |
| JsonWriter.Writer.EncodeTable | crates/libs/lib-lualib/src/lua_json.rs:260-281 | text for at most 64 tables inside one another |
| JsonTheorems.EncodeParses | crates/libs/lib-lualib/src/lua_json.rs:93-281 | where all that is written is clean, parsing the text uses all of it and gives the encoded tree, and only a value without a tree has no text, under every option and layout |
| JsonTheorems.PrettyIsCompact | crates/libs/lib-lualib/src/lua_json.rs:150-165 | there is a pretty text if and only if there is a compact one, and both parse to the same tree |
| JsonTheorems.ValueLayouts | crates/libs/lib-lualib/src/lua_json.rs:150-165 | layout never decides whether a value has text, whatever it holds |
| JsonTheorems.TextReads | crates/libs/lib-lualib/src/lua_json.rs:93-281 | with keys of any type among clean ones, all of the text parses to what Seen says or not at all |
| JsonTheorems.DirectIsEncodedAndParsed | crates/libs/lib-lualib/src/lua_sqlx.rs:1249-1299 | what the direct converter computes is what encoding with the defaults and parsing gives, errors included |
| JsonTheorems.ConvertsExactlyUpTo64 | crates/libs/lib-lualib/src/lua_sqlx.rs:1266-1269 | where nothing else is in the way a value converts if and only if its tables nest at most 64 deep |
| JsonTheorems.EncodesExactlyUpTo64 | crates/libs/lib-lualib/src/lua_json.rs:267-270 | the encoder accepts exactly the same nesting |
| JsonMeaning.SixtyFour | crates/libs/lib-lualib/src/lua_json.rs:267-270 | text, and a tree, for exactly the values whose tables nest at most sixty-four deep |
| JsonMeaning.NestedExactly | crates/libs/lib-lualib/src/lua_json.rs:267-270 | a chain of n tables, each in the one before, is written and converted if and only if n is at most 64 |
| JsonMeaning.Scalars | crates/libs/lib-lualib/src/lua_json.rs:93-148 | the text and the tree of each value without parts |
| JsonMeaning.MarkedIsArray | crates/libs/lib-lua-sys/src/laux.rs:854-859 | with __array a table is an array of its border's length, whatever its keys and beside __object too |
| JsonMeaning.MarkedIsObject | crates/libs/lib-lua-sys/src/laux.rs:861-864 | with __object alone a table that has entries is an object |
| JsonMeaning.EmptyTable | crates/libs/lib-lualib/src/lua_json.rs:245-255 | a table without entries is what the option for empty tables says |
| JsonMeaning.NumberKeysRefused | crates/libs/lib-lualib/src/lua_json.rs:228-241 | without the option for number keys an object with an integer key is refused |
| JsonMeaning.HolesAre | crates/libs/lib-lualib/src/lua_json.rs:184-191 | a hole makes an object without the option for sparse arrays, and is null with it |
| JsonMeaning.DirectOptions | crates/libs/lib-lualib/src/lua_sqlx.rs:1292-1299 | the direct converter takes empty tables as arrays, integer keys as names and holes as null |
| JsonMeaning.PrettyArray | crates/libs/lib-lualib/src/lua_json.rs:150-198 | a pretty array, byte for byte |
| JsonMeaning.PrettyObject | crates/libs/lib-lualib/src/lua_json.rs:200-258 | a pretty object, byte for byte |
| JsonTheorems.CyclesNeverNest | crates/libs/lib-lualib/src/lua_sqlx.rs:1267-1269 | tables on a cycle nest to no depth |
| JsonTheorems.CyclesAreRefused | crates/libs/lib-lualib/src/lua_sqlx.rs:1267-1269 | the direct converter ends with an error on every cyclic table, whatever else it holds |
| JsonTheorems.CyclesHaveNoText | crates/libs/lib-lualib/src/lua_json.rs:267-270 | the encoder ends with an error on every table that leads into a cycle by what it writes, whatever else it holds |
| JsonTheorems.NameReadsBackExactly | crates/libs/lib-lualib/src/lua_json.rs:218-227 | a written key reads back as itself, up to what follows, if and only if it is UTF-8 and needs no escape |
| JsonTheorems.KeysAreNotEscaped | crates/libs/lib-lualib/src/lua_json.rs:218-227 | a key with a quotation mark gives text that does not parse, though the value converts |
| JsonOddKeys.OddKeysExactly | crates/libs/lib-lualib/src/lua_json.rs:242-243 | for a value with keys that are neither strings nor integers at any depth: the converter refuses it, and its text parses if and only if each such key is alone in its table |
| JsonOddKeys.OddIsRefused | crates/libs/lib-lualib/src/lua_sqlx.rs:1282-1287 | the converter refuses every value in which it meets such a key, whatever its strings are |
| JsonRoundTrip.HollowObjectParses | crates/libs/lib-lualib/src/lua_json.rs:207-255 | the text of a table with such an entry alone reads as an empty object, whatever follows it |
| JsonOddKeys.OddKeysAreDropped | crates/libs/lib-lualib/src/lua_json.rs:242-243 | the smallest such table, encoded and parsed, is an empty object where the converter refuses it |
| JsonExact.SlowIsDirectExactly | crates/libs/lib-lualib/src/lua_json.rs:218-227 | where the converter gives a value, with distinct names in each table, compact text parses to that value if and only if no name that is written needs an escape |
| JsonExact.ValueIsLeast | crates/libs/lib-lualib/src/lua_json.rs:20-40 | no JSON text is shorter than its value written compactly with all escapes the encoder uses |
| JsonExact.ValueLength | crates/libs/lib-lualib/src/lua_json.rs:93-281 | the compact text is no longer than that, and as long only when all names that are written are plain |
| JsonTheorems.MissedSequenceIsObject | crates/libs/lib-lualib/src/lua_json.rs:272-278 | a sequence the detector misses is written and converted as an object |
| JsonRoundTrip.CharsParse | crates/libs/lib-lualib/src/lua_json.rs:20-40 | every string, escapes included, reads back as itself |
| JsonConverter.ValueToJson | crates/libs/lib-lualib/src/lua_sqlx.rs:1249-1264 | gives the value's tree or its error, and leaves the Lua stack as it was |
| JsonConverter.TableToJson | crates/libs/lib-lualib/src/lua_sqlx.rs:1266-1299 | the same for a table, on every way out |
| JsonConverter.AllFields | crates/libs/lib-lualib/src/lua_sqlx.rs:1288-1291 | inserting fields in the order of iteration keeps the last of equal names |
| JsonPush.PushJson | crates/libs/lib-lualib/src/lua_sqlx.rs:1984-2015 | pushes exactly one value, which holds the JSON given in new tables, and touches no value or table that was there |
| JsonReadBack.ReadsBack | crates/libs/lib-lualib/src/lua_sqlx.rs:1984-2015 | whatever order the hash part takes, a pushed value reads back as its normal form |
| JsonReadBack.PushAndRead | crates/libs/lib-lualib/src/lua_sqlx.rs:1249-1299 | pushing and reading back returns the JSON with empty objects as empty arrays and integers above i64 as strings |
| UserdataTheorems.CreationIsAccountedExactly | crates/libs/lib-lualib/src/sqlx_lua.rs:177-213 | whatever finalizers do, a creation leaves every value dropped or in a block that will drop it, if and only if the metatable is registered before it begins and the state is not being closed |
| UserdataTheorems.RunsAreAccountedExactly | crates/libs/lib-lualib/src/sqlx_lua.rs:177-213 | the same for whole runs of creations, collections, closes and surrenders |
| UserdataTheorems.ReentryLeaks | crates/libs/lib-lualib/src/sqlx_lua.rs:185-213 | a first creation entered again by a finalizer at its first allocation: the value inside is never dropped |
| UserdataTheorems.UndisturbedRun | crates/libs/lib-lualib/src/sqlx_lua.rs:177-213 | runs in which no first creation is entered again leave every value accounted for, whichever allocations fail |
| UserdataTheorems.LifeIsSound | crates/libs/lib-lualib/src/sqlx_lua.rs:186-207 | in every life of a type, the registry slot is absent or holds a complete metatable, and no value is dropped twice |
| UserdataTheorems.LifeDropsAll | crates/libs/lib-lualib/src/sqlx_lua.rs:314-349 | in every life whose first creation is not entered again and whose end creates nothing, each value is dropped exactly once |
| UserdataTheorems.GuardedIsDropped | crates/libs/lib-lualib/src/sqlx_lua.rs:315-322 | closing, collecting or giving up a guarded block drops its value at once and only once |
| UserdataTheorems.CreatedExactly | crates/libs/lib-lualib/src/sqlx_lua.rs:177-213 | a creation succeeds if and only if memory is found for all it needs, whatever finalizers do; otherwise the value is dropped |
| UserdataTheorems.ShutDownLeavesNew | crates/libs/lib-lualib/src/sqlx_lua.rs:315-322 | whatever finalizers do while the state closes, the values not dropped are exactly those in userdata made meanwhile |
| UserdataTheorems.ShutDownDropsAllExactly | crates/libs/lib-lualib/src/sqlx_lua.rs:315-322 | closing drops each value exactly once whatever finalizers do, if and only if none of them creates a userdata of the type |
| Userdata.BuiltIsSound | crates/libs/lib-lualib/src/sqlx_lua.rs:191-205 | a metatable being built stays unregistered and complete up to its stage, whoever publishes another meanwhile |
| UserdataRealm.Realm.Create | crates/libs/lib-lualib/src/sqlx_lua.rs:314-349 | the state after it is Created; the value is in the new block, or dropped when any step failed, and other blocks are only emptied |
| UserdataRealm.Realm.Publish | crates/libs/lib-lualib/src/sqlx_lua.rs:186-207 | the state after it is Published: the registry is set only to a whole metatable, and never left with another |
| UserdataRealm.Realm.Dispatch | crates/libs/lib-lualib/src/sqlx_lua.rs:177-213 | success gives an empty block; with the metatable registered and the state not closing it is the registered one and a finalizer is due |
| UserdataRealm.Realm.Finalize | crates/libs/lib-lualib/src/sqlx_lua.rs:315-322 | close and collection drop the value of a guarded block once, and conserve all others |
| UserdataRealm.Realm.Abandon | crates/libs/lib-lualib/src/lua_sqlx.rs:244-253 | the value is dropped at once and later finalizers find nothing |
| UserdataRealm.Realm.Shutdown | crates/libs/lib-lualib/src/sqlx_lua.rs:315-322 | the state after it is ShutDown; when all was accounted for and finalizers create nothing, each value ever given has been dropped exactly once |
| Userdata.HeldUpdate | crates/libs/lib-lualib/src/sqlx_lua.rs:344-348 | changing one block changes the values held by exactly what went in and came out |
| Buffer.ReadsFollowWrites | crates/libs/lib-core/src/buffer.rs:34-108 | on the tape, over any run of writes and reads, the bytes read followed by the bytes readable are the bytes written |
| Buffer.WhatIsReadable | crates/libs/lib-core/src/buffer.rs:34-192 | what can be read after each event, from what could be read before |
| Buffer.EventsUndo | crates/libs/lib-core/src/buffer.rs:51-192 | going back undoes taking, taking off the end undoes writing, and what is put in front is read next |
| Buffer.PerformAll | crates/libs/lib-core/src/buffer.rs:34-192 | over any run of all the operations, wherever the buffer compacts or grows, the tape afterwards is the one before after the events that happened and the bytes passed over are its outputs; without steps back these and the readable bytes are what there was and what was written |
| Buffer.Buffer.Prepare | crates/libs/lib-core/src/buffer.rs:139-168 | the tape is unchanged and a commit of that size will succeed; the bytes already read are given up exactly when the end has too little room and both together have enough |
| Buffer.Buffer.Commit | crates/libs/lib-core/src/buffer.rs:170-181 | succeeds exactly within the capacity and takes in the bytes put there |
| Buffer.Buffer.WriteSlice | crates/libs/lib-core/src/buffer.rs:34-37 | writes the bytes at the end of the tape, and keeps the front unless it compacts |
| Buffer.Buffer.Write | crates/libs/lib-core/src/buffer.rs:39-41 | writes one byte at the end, growing a full store, and forgets nothing of the front |
| Buffer.Buffer.WriteFront | crates/libs/lib-core/src/buffer.rs:51-65 | prepends exactly when that much of what was read is still there |
| Buffer.Buffer.Read | crates/libs/lib-core/src/buffer.rs:90-101 | returns the next bytes exactly when there are so many |
| Buffer.Buffer.Consume | crates/libs/lib-core/src/buffer.rs:103-108 | skips bytes, or does nothing when there are fewer |
| Buffer.Buffer.Seek | crates/libs/lib-core/src/buffer.rs:110-124 | moves over readable bytes, or back over bytes still there, and fails otherwise |
| Buffer.Buffer.Revert | crates/libs/lib-core/src/buffer.rs:183-192 | takes readable bytes off the end |
| Buffer.MoveDown | crates/libs/lib-core/src/buffer.rs:143-151 | the overlapping move to the front keeps the readable bytes |
| Resp.CommandReadsBack | crates/libs/lib-lualib/src/lua_json.rs:555-570 | a command reads back as its bulk strings with nothing left over if and only if it announces as many as it holds |
| Resp.ArgumentsReadBackExactly | crates/libs/lib-lualib/src/lua_json.rs:505-570 | with marked tables too, a command reads back if and only if its arguments, spread out as the array detector lists them, come to as many bulk strings as there are arguments |
| Resp.UnlistedTableWritesNothing | crates/libs/lib-lualib/src/lua_json.rs:506-509 | every marked table that is not taken for an array writes nothing, and alone gives a command that cannot be read |
| Resp.ArgumentsReadBack | crates/libs/lib-lualib/src/lua_json.rs:491-525 | without marked tables every command reads back as its rendered arguments, one each |
| Resp.ArgumentsAreSent | crates/libs/lib-lualib/src/lua_json.rs:491-525 | without marked tables a server reads one bulk string for each argument with the argument's meaning: null for nil, a string's own bytes, an integer that parses as itself, the literal of a boolean, JSON that parses to a clean table's tree |
| Resp.FailsExactly | crates/libs/lib-lualib/src/lua_json.rs:518-523 | without marked tables a command fails if and only if an argument is of another type or a table without text |
| Resp.MarkedSequenceIsSpread | crates/libs/lib-lualib/src/lua_json.rs:505-509 | a marked sequence is spread into its values in order, with their meaning |
| Resp.MarkedTableMiscounts | crates/libs/lib-lualib/src/lua_json.rs:505-509 | a marked table with two items on its own gives a command that does not read back |
| Resp.BulkParses | crates/libs/lib-lualib/src/lua_json.rs:484-489 | a bulk string of any bytes, or the null bulk string, reads back from its text |
| Resp.ConcatResp | crates/libs/lib-lualib/src/lua_json.rs:555-575 | writes exactly the command of the rendered arguments or fails; without marked tables it fails exactly when an argument has no text, and a server reads one bulk string for each argument with its meaning |

## Left out

- Network, TLS, drivers, the scheduler and the host of Moon's messages: they are steps or answers of the environment.
- Row decoding and parameter binding through sqlx types: long tables over library code. Whether a parameter binds is a property of the query.
- The connection log gate, option checks, `hash_string`, `parse_null_type` and the Lua wrappers: easy members.
- `decode_one` of the JSON module: it builds Lua tables as `push_json_value` does, with other rules for keys.
- ResponseRegistry.Registry.Counts: proved when it runs alone. While others run it sees each shard at a different moment.
- ResponseRegistry.Registry.Register: the hash of a key is computed without the 64-bit wrap-around, which does not reach the five bits that select the shard.
- RequestQueue.SendClose: the asynchronous send of Close waits for room; the order in which waiting senders get a free place is not modelled.
- NamedConnections.Step: a handler that panics does not clean up, which is not a step of the model.
- NamedConnections.LookupFindsNewest: a connection may start closing between a lookup's check and its answer, as in the source.
- The environment decides when a command ends whether it was carried out; a server that decides later, after the connection is retired, is not modelled.
- HandlerProofs.ErrorThatKeepsTheConnection: assumes that the errors listed as refusals (`Backend.Refusal`) are refusals of a statement, which then had no effect, and that the connection is in step with the server afterwards: nothing of the answer is left unread and no transaction is left open that was not open before.
- SQL that itself begins or commits transactions, or commits implicitly, is outside the assumptions of the transaction results.
- Error messages: JSON conversion, encoding and RESP only tell success from failure.
- Floats: the text of a float is given with it and not computed; the JSON results exclude floats, and of light userdata they admit only the null pointer.
- JsonExact.SlowIsDirectExactly: about compact text and distinct names; in a table with integer 1 beside string "1" the later of the two fields is read, and whether escapes matter there is not stated.
- JsonOddKeys.OddKeysExactly: asks that the other names need no escapes and that names and strings are UTF-8.
- UserdataTheorems.CreationIsAccountedExactly: the type's own userdata only; Lua code that replaces metatables through the debug library is not modelled. The model lets a finalizer's own allocations run finalizers too, at every allocation, which the Lua version in use may not do; the failing traces need neither.
- LuaTables.LuaTable: the length operator reports the same border every time it is asked about an unchanged table.
- LuaStack.Pairs: the protected calls of the iterators and of table construction succeed; failing allocations are the subject of the userdata model alone. Lua stack exhaustion is not modelled.
- JsonPush.PushJson: new entries of a hash part are inserted anywhere in the order of iteration; existing ones are not reordered among themselves.
- Resp.Rendered: `__redis` tables that contain themselves exhaust the call stack in the source; the model takes how deep the stack lasts as a parameter and reports an error at its end.
- Resp.ConcatResp: the hash that is returned beside the command is left out, and a call without arguments is not modelled.
- Buffer.Buffer.Read: sums of positions and counts are unbounded, where the source's could overflow a machine word.
- Buffer.Buffer.Write: how much a full vector grows by is fixed here and does not matter to the contract.
