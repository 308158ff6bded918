# redis-message-cluster, modelled in Dafny

A cluster of `MessageNode`s shares one Redis store. One node at a time holds
the generator lock (a Redlock lease on `prefix:generator:lock`). That node writes
work items under `prefix:messages:<guid>:<ms><counter>` and keeps extending its
lease. Every other node is a handler: it drains the message keys with SCAN and
claims each one with an atomic GET+DEL. It hands each claimed value to a handler
that sometimes throws, and stores every failure as a JSON error record under
`prefix:handling_errors:<ms>`. Per-node statistics are INCRBY counters under
`prefix:stats:<guid>:<metric>`. `getStats` folds them into cluster totals and a
per-node breakdown. In display mode a node only reads, prints and deletes the
error records.

The model has one module per source file, plus two support modules:

- `Wrappers` holds `Option` and `Result`.
- `JsStrings` holds the JavaScript built-ins the code relies on: decimal
  rendering of numbers, `split`, `trim`, `startsWith` and `parseInt`.
- `RedisHelpers` models the store as a class over a `map<string, string>`. Its
  methods are SET, the MULTI GET+DEL claim, the error-record write and read, and
  INCRBY with Redis's 64-bit range check. It also gives the exact JSON text
  `JSON.stringify` produces for an error record, and a parser proved to read it
  back.
- `MessagesGenerator`, `MessagesHandler` and `MessagesStats` are classes whose
  methods are proved against specification functions (`Page`, `Pass`,
  `ApplyIncrements`, `Aggregate`). The properties are lemmas about those
  functions.
- `NodeControl` is the role state machine of `index.js` as a transition system
  over values. It holds the role, the lock, the test budget, the three timer
  slots, the pending timers, the asynchronous calls in flight and the locks
  handed to `release`. A `setTimeout` arms a fresh timer id and stores it in a
  slot. A `clearTimeout` removes the slot's id from the pending timers. A timer
  firing, a lock or extend call settling, a drain settling and a write settling
  are separate events, so races that the code leaves open can be stated.
- `MessageNode.Node` is the class itself. The constructor and the event methods
  (`Stop`, `Start`, `TimerFires`, `LockAcquired`, `LockFailed`,
  `ExtendSucceeded`, `ExtendFailed`, `DrainFinished`, `GenerationFinished`,
  `GenerationSettles`) are proved to move its fields as `NodeControl.Step` says
  and to keep the invariant `NodeControl.Valid`. The private methods they call
  (`SetTimeout`, `ClearTimeout`, `TestGeneratorLock`, `ExtendGeneratorLock`,
  `HandleMessages`, `GenerateMessage`, `GenerateMessagesLoop`, `SetupGenerator`,
  `SetupHandler`) are proved to move the fields as the `NodeControl` function of
  the same name (`Arm` and `Cancel` for the two timer calls), without the
  invariant. The store work is proved against specification functions:
  `ShowPageKeys` against `ShowPage`, `DisplayErrorsPass` against `Display`,
  `DrainAndCount` against the drain `Pass` followed by `ApplyIncrements`, and
  `WriteAndCount` against the generator's write followed by one increment.
- `App` is the argument parser of `app.js`.

Behaviour of the code that the model keeps as written, and proves:

- A failed lease extension demotes the node to handler without re-arming the
  election timer. Right after the demotion the election slot holds no pending
  timer and no lock attempt is in flight
  (`NodeControl.DemotedGeneratorStopsCompeting`). A node with no election timer
  pending and no lock attempt in flight stays in that condition, and does not
  become generator, over any run of events without `start()`
  (`NodeControl.OutOfElectionRun`, `NodeControl.DemotedGeneratorLeavesElection`).
  Only a second `start()` can bring it back: through an election timer it
  orphans (`NodeControl.StartTwiceOrphansElectionTimer`), or through a lock
  attempt that survived an earlier `stop()` (`NodeControl.StopThenLockSettles`).
  In the second case the demoted node has no election timer pending, and the
  surviving attempt still makes it generator
  (`NodeControl.StrayLockRevivesDemotedNode`).
- Outside the test environment the generation timer is stored in the handling
  slot. After a demotion the drain timer overwrites that slot, so `stop()` can
  no longer clear the generation timer, and a stopped node still writes one more
  message (`NodeControl.OrphanedGenerationTimer`). Calling `start()` twice leaves
  an election timer that `stop()` cannot clear
  (`NodeControl.StartTwiceOrphansElectionTimer`).
- `stop()` does not cancel a lock attempt already in flight. When the attempt
  settles, the stopped node comes back as generator or as handler
  (`NodeControl.StopThenLockSettles`). Nor does it cancel a lease extension in
  flight: when that fails, the stopped node comes back as a running handler
  with its drain timer armed (`NodeControl.StopThenExtendFails`).
- The generator's counter is never reset. Its guard compares with
  `Math.MAX_SAFE_INTEGER`, which is `undefined`, so the counter climbs to 2^53,
  where `++` no longer moves a JavaScript number, and stays there
  (`MessagesGenerator.WrittenCounterNeverResets`,
  `MessagesGenerator.WrittenCounterSticks`). The reset the code intends is
  modelled beside it (`MessagesGenerator.CounterResets`); see the Findings below.
- A failed `incrStats` (or a drain that settles without statistics) stops the
  drain loop for good. A failed `incrGenerated` stops the generation loop for
  good (`MessageNode.Node.DrainFinished`, `MessageNode.Node.GenerationFinished`).
- A handler failure whose error record cannot be written counts in neither
  `handled` nor `handleErrors` (`MessagesHandler.HandlerOutcomeCounted`).
- `stop()` clears only the three timer slots (`NodeControl.StopEffect`). A
  pending timer that no slot holds any more, as in the cases above, survives it.
- In `getStats` a failed GET throws inside a store callback, and the promise
  never settles (`MessagesStats.Stats.GetStats`,
  `MessagesStats.GetStatsAsWritten`).

The functions below are plain definitions. They model the code at the lines
given, carry no contract of their own, and are what the contracts in the table
are stated over:

- `JsStrings.Trim`: `String.prototype.trim`, app.js:22-23.
- `App.ApplyArg`, `App.Parsed`: one argument of the `forEach`, and the fold
  over all of them, app.js:6-27.
- `RedisHelpers.Lookup`: GET on the map, message-node/redis-helpers.js:15.
- `RedisHelpers.ErrorKey`: `prefix + Date.now()`, message-node/redis-helpers.js:41.
- `RedisHelpers.Serialize`: `JSON.stringify` of an error record,
  message-node/redis-helpers.js:34-41.
- `RedisHelpers.Parse`, `RedisHelpers.Decoded`: `JSON.parse` of what the claim
  delivered, message-node/redis-helpers.js:52-59.
- `RedisHelpers.CounterValue`, `RedisHelpers.IncrementAccepted`: INCRBY's reading
  of the old value and its range check, message-node/messages-stats.js:112-122.
- `MessagesGenerator.MessageKey`: `prefix + Date.now() + counter`,
  message-node/messages-generator.js:18.
- `MessagesGenerator.MessageText`: `text || randomString.generate()`,
  message-node/messages-generator.js:17.
- `MessagesGenerator.Incremented`: `this._counter++` on a number up to 2^53,
  message-node/messages-generator.js:24.
- `MessagesGenerator.GuardedNext`: the increment and the reset guard, for a
  given right-hand side of `===`, message-node/messages-generator.js:24-28.
- `MessagesGenerator.WrittenNextCounter`, `MessagesGenerator.WrittenCounterAfter`:
  one write and a run of writes with the guard as written,
  message-node/messages-generator.js:24-28.
- `MessagesGenerator.RunKeys`: the keys of a run of writes,
  message-node/messages-generator.js:18-28.
- `MessagesHandler.StepKey`: one key of the `for` loop,
  message-node/messages-handler.js:31-46.
- `MessagesHandler.Page`: the `for` loop over a page,
  message-node/messages-handler.js:28-48.
- `MessagesHandler.Pass`: the recursion on the cursor and the summing of the
  statistics, message-node/messages-handler.js:16-67.
- `MessagesStats.KeyNode`, `MessagesStats.KeyField`: the last two segments of a
  key, message-node/messages-stats.js:64-66.
- `MessagesStats.ApplyOne`, `MessagesStats.ApplyIncrements`: one increment, and
  the increments `incrStats` issues, message-node/messages-stats.js:12-41.
- `MessagesStats.Aggregate`: the fold of the GET replies into the result,
  message-node/messages-stats.js:62-100.
- `MessagesStats.GetStatsAsWritten`: getStats with the `hasOwnProperty` guard,
  message-node/messages-stats.js:43-110.
- `NodeControl.Arm`, `NodeControl.Cancel`: `setTimeout` into a slot and
  `if (slot) clearTimeout(slot)`, message-node/index.js:67-89 and 119.
- `NodeControl.TestGeneratorLock`, `NodeControl.ExtendGeneratorLock`,
  `NodeControl.HandleMessages`, `NodeControl.GenerateMessage`,
  `NodeControl.GenerateMessagesLoop`, `NodeControl.SetupGenerator`,
  `NodeControl.SetupHandler`: the private methods of the same name,
  message-node/index.js:92-193.
- `NodeControl.StopNode`: `stop()`, message-node/index.js:55-65.
- `NodeControl.FireTimer`: a pending timer's callback, message-node/index.js:119-184.
- `NodeControl.Step`, `NodeControl.Run`: one event and a run of events,
  message-node/index.js:41-193.
- `MessageNode.ReportOf`: what display mode writes for one read outcome,
  message-node/index.js:206-213.
- `MessageNode.ShowKey`: one key of the display pass,
  message-node/index.js:205-213.
- `MessageNode.Display`: the `while` loop of `_displayErrors`,
  message-node/index.js:196-217.

## Model

| member | source | states |
|---|---|---|
| JsStrings.NatToString | message-node/messages-generator.js:18 | a number concatenated into a key is rendered as a non-empty string of decimal digits with no leading zero |
| JsStrings.NatToStringValue | message-node/messages-generator.js:18 | reading the rendered digits back gives the number |
| JsStrings.NatToStringInjective | message-node/messages-generator.js:18 | different numbers render as different strings |
| JsStrings.ConcatSameWidth | message-node/messages-generator.js:18 | two concatenations with equal-length first parts are equal only when both parts are equal |
| JsStrings.Split | message-node/messages-stats.js:64 | `split` always returns at least one piece |
| JsStrings.SplitJoin | message-node/messages-stats.js:64 | joining the pieces with the separator gives the original string |
| JsStrings.SplitPiecesHaveNoSeparator | message-node/messages-stats.js:64 | no piece contains the separator |
| JsStrings.SplitNoSeparator | message-node/messages-stats.js:64 | a string without the separator splits into itself |
| JsStrings.SplitAppend | message-node/messages-stats.js:64-66 | splitting `a + sep + b` gives the pieces of `a` followed by the pieces of `b` |
| JsStrings.TrimStart | app.js:23 | the result is a suffix, starts with a non-whitespace character and only whitespace was dropped |
| JsStrings.TrimEnd | app.js:23 | the result is a prefix, ends with a non-whitespace character and only whitespace was dropped |
| JsStrings.TrimNonEmpty | app.js:22-23 | `trim()` is non-empty exactly when some character is not whitespace |
| JsStrings.LeadingDigits | message-node/messages-stats.js:76-77 | the length of the longest all-digit prefix |
| JsStrings.LeadingDigitsAll | message-node/messages-stats.js:76-77 | digits followed by a non-digit have exactly that many leading digits |
| JsStrings.AutoNumberMeansDecimalNumber | message-node/messages-stats.js:76-77 | when `parseInt(result)` is a number, `parseInt(result, 10)` is one too |
| JsStrings.ParseIntToString | message-node/messages-stats.js:76-77 | `parseInt` with or without radix 10 reads a rendered integer back as that integer |
| RedisHelpers.PassEndsNext | message-node/messages-handler.js:55-61 | when a reply does not end the pass, a later one does |
| RedisHelpers.ErrorKeyCollision | message-node/redis-helpers.js:41 | two error keys coincide exactly when the two millisecond readings do, so two failures in one millisecond share a key and the later overwrites |
| RedisHelpers.HexRoundTrip | message-node/redis-helpers.js:41 | a `\u` escape's hex digit reads back as its value |
| RedisHelpers.Unescape | message-node/redis-helpers.js:55 | a decoded escape consumes between one character and the whole input |
| RedisHelpers.ParseStringBody | message-node/redis-helpers.js:55 | a parsed JSON string leaves strictly less input |
| RedisHelpers.Expect | message-node/redis-helpers.js:55 | a literal matches exactly when the input starts with it, and the literal followed by the rest returned is the input |
| RedisHelpers.ExpectLiteral | message-node/redis-helpers.js:55 | a literal followed by text leaves that text |
| RedisHelpers.ParseStampOf | message-node/redis-helpers.js:34-55 | a rendered stamp followed by a non-digit parses back to the stamp |
| RedisHelpers.ParseEscapedChar | message-node/redis-helpers.js:41-55 | one escaped character parses back to itself |
| RedisHelpers.UnescapeEscaped | message-node/redis-helpers.js:41-55 | the text a string escape writes after its backslash is read back as the escaped character, consuming the whole escape |
| RedisHelpers.UnescapeControl | message-node/redis-helpers.js:41-55 | a control character written as a four-digit hexadecimal escape is read back as itself |
| RedisHelpers.ParseEscaped | message-node/redis-helpers.js:41-55 | an escaped string followed by a closing quote parses back to the string |
| RedisHelpers.ParseMember | message-node/redis-helpers.js:41-55 | one `"name":"value"` member parses back to its value |
| RedisHelpers.SerializeParse | message-node/redis-helpers.js:34-56 | `JSON.parse` of the JSON written for an error record gives the same record |
| RedisHelpers.StoredInteger | message-node/messages-stats.js:112-122 | a value INCRBY accepts is the rendering of a 64-bit integer |
| RedisHelpers.StoredIntegerOf | message-node/messages-stats.js:112-122 | the rendering of a 64-bit integer is accepted as that integer |
| RedisHelpers.WrittenErrorReadsBack | message-node/redis-helpers.js:32-62 | the record writeError stores is the record readAndDeleteError delivers for that key |
| RedisHelpers.Store.Set | message-node/messages-generator.js:18-22 | SET: an error leaves the store as it was, success binds the key |
| RedisHelpers.Store.GetAndDelete | message-node/redis-helpers.js:12-30 | the claim returns what the key held and removes it; a missing key gives null and changes nothing; an error changes nothing |
| RedisHelpers.Store.WriteError | message-node/redis-helpers.js:32-48 | stores the serialized `{stamp, msg, stack, message}` record under prefix + `Date.now()`; an error changes nothing |
| RedisHelpers.Store.ReadAndDeleteError | message-node/redis-helpers.js:50-63 | the key is deleted before parsing, so a record that cannot be parsed is reported and gone; an error changes nothing |
| RedisHelpers.Store.IncrBy | message-node/messages-stats.js:112-122 | INCRBY succeeds exactly when no error is injected and the old value and the sum fit in 64 bits, and then stores the sum |
| RedisHelpers.IncrementReadsBack | message-node/messages-stats.js:112-122 | after an accepted increment the counter reads as the old value plus the amount |
| RedisHelpers.CounterValueOtherKey | message-node/messages-stats.js:112-122 | writing one key leaves every other counter's value unchanged |
| MessagesGenerator.WrittenCounterAfterValue | message-node/messages-generator.js:24-28 | as written, the counter after k writes from c is c + k up to 2^53 and stays at 2^53 from then on |
| MessagesGenerator.WrittenCounterNeverResets | message-node/messages-generator.js:24-28 | as written, the reset never fires: after a write the counter is positive and not below where it started, and 2^53 - 2 becomes 2^53 - 1 where the intended reset gives 0 |
| MessagesGenerator.WrittenCounterSticks | message-node/messages-generator.js:18-28 | once the writes reach 2^53 the counter stays there, so later writes in one millisecond share a key |
| MessagesGenerator.NextCounter | message-node/messages-generator.js:24-28 | with the intended guard (`Number.MAX_SAFE_INTEGER`), the counter stays below `MAX_SAFE_INTEGER` |
| MessagesGenerator.CounterAfter | message-node/messages-generator.js:24-28 | with the intended guard, the counter stays below `MAX_SAFE_INTEGER` after any number of writes |
| MessagesGenerator.CounterAfterNoWrap | message-node/messages-generator.js:24-28 | with the intended guard, the counter counts the writes until it wraps |
| MessagesGenerator.CounterAfterCompose | message-node/messages-generator.js:24-28 | with the intended guard, a run of writes split in two moves the counter as the whole run does |
| MessagesGenerator.CounterResets | message-node/messages-generator.js:26-28 | with the intended guard, the write that reaches `MAX_SAFE_INTEGER` resets the counter to 0 |
| MessagesGenerator.CounterWrapsAround | message-node/messages-generator.js:24-28 | with the intended guard, after `MAX_SAFE_INTEGER` writes the counter and the key repeat |
| MessagesGenerator.MessageKeyInjective | message-node/messages-generator.js:18 | with timestamps of one width, keys coincide exactly when millisecond and counter do |
| MessagesGenerator.RunKeysDistinct | message-node/messages-generator.js:10-28 | until the counter reaches 2^53, and with timestamps of one width, every key a generator writes is new |
| MessagesGenerator.Generator.constructor | message-node/messages-generator.js:4-14 | the prefix is `prefix:messages:<guid>:` and the counter starts at 0 |
| MessagesGenerator.Generator.Generate | message-node/messages-generator.js:16-31 | a store error leaves counter and store as they were and is reported; success stores the text under prefix + ms + counter and advances the counter by the guard it was built with, which never resets it (`Math.MAX_SAFE_INTEGER`), so the counter never decreases |
| MessagesStats.MetricOf | message-node/messages-stats.js:68 | a field is accepted only when it is the name of its counter (the corrected guard) |
| MessagesStats.MetricOfName | message-node/messages-stats.js:44-50 | every counter's name is accepted as that counter |
| MessagesStats.AsWrittenGuardAdmitsNodesStat | message-node/messages-stats.js:44-68 | the guard as written admits exactly the four counter names and `nodesStat` |
| MessagesStats.CounterKeysDistinct | message-node/messages-stats.js:8-41 | the four counter keys of a node are distinct |
| MessagesStats.CounterKeyParts | message-node/messages-stats.js:64-66 | a counter key splits back into its node guid and its counter name |
| MessagesStats.Increments | message-node/messages-stats.js:12-29 | one increment per positive field, by that field's value, each counter at most once |
| MessagesStats.IncrementsAmount | message-node/messages-stats.js:12-29 | the increments add exactly each field's value to its counter, and nothing for a zero field |
| MessagesStats.AmountConcat | message-node/messages-stats.js:12-29 | the amount for a counter adds up over concatenated increments |
| MessagesStats.ApplyIncrementsCounter | message-node/messages-stats.js:112-122 | when all increments resolve, each counter grows by its total amount |
| MessagesStats.IncrementStep | message-node/messages-stats.js:112-122 | one resolved increment grows its own counter and no other |
| MessagesStats.ApplyIncrementsOthers | message-node/messages-stats.js:112-122 | keys other than this node's counters are untouched |
| MessagesStats.ApplyIncrementsAppend | message-node/messages-stats.js:12-28 | issuing one list of increments and then another leaves the store and outcome of issuing their concatenation, resolving exactly when both lists do |
| MessagesStats.Counters.Add | message-node/messages-stats.js:78-88 | adding to one counter changes it by that amount and no other |
| MessagesStats.KeyContribution | message-node/messages-stats.js:64-89 | a key contributes only to the node and counter its last two segments name |
| MessagesStats.MissingValueContributesNothing | message-node/messages-stats.js:75-89 | a missing, empty or non-numeric value changes no total and creates no node entry |
| MessagesStats.AggregateTotals | message-node/messages-stats.js:78 | each total is the sum of all contributions to it |
| MessagesStats.AggregateNodes | message-node/messages-stats.js:80-87 | a node has an entry exactly when some key contributes to it |
| MessagesStats.AggregateNodeEntries | message-node/messages-stats.js:80-88 | each node entry is the sum of that node's contributions |
| MessagesStats.NodeSumWithout | message-node/messages-stats.js:80-88 | a node no key contributes to sums to 0 |
| MessagesStats.SumNodesRemove | message-node/messages-stats.js:88 | the sum over entries splits off any one entry |
| MessagesStats.SumNodesUpdate | message-node/messages-stats.js:88 | replacing one entry changes the sum by the difference |
| MessagesStats.TotalsAreNodeSums | message-node/messages-stats.js:78-88 | every total equals the sum of that counter over the per-node entries |
| MessagesStats.CounterKeyContribution | message-node/messages-stats.js:64-89 | a counter key holding an integer contributes it to its own node and counter |
| MessagesStats.NoGetFailsAll | message-node/messages-stats.js:69-73 | no GET failure in the fold means no key's GET fails |
| MessagesStats.NoneBadAll | message-node/messages-stats.js:69-73 | the key-by-key check from the last key back holds exactly when no key is bad |
| MessagesStats.Stats.constructor | message-node/messages-stats.js:2-6 | the key prefix is `prefix:stats:<guid>` and the pattern `prefix:stats:*` |
| MessagesStats.Stats.IncrGenerated | message-node/messages-stats.js:8-10 | one INCRBY on the generated counter |
| MessagesStats.Stats.IncrStats | message-node/messages-stats.js:12-29 | the store and the outcome are those of the positive-field increments, all issued, resolving only when all do |
| MessagesStats.Stats.IncrMetric | message-node/messages-stats.js:31-41 | one INCRBY on the counter key of the metric: the store and outcome of that single increment |
| MessagesStats.Stats.GetStats | message-node/messages-stats.js:43-110 | KEYS failing rejects; otherwise the report is delivered exactly when there is a key and no GET fails, and it is then the fold of all keys |
| MessagesStats.NodesStatKeyField | message-node/messages-stats.js:64-66 | the field of a node's `nodesStat` key is `nodesStat` |
| MessagesStats.NumericNodesStatThrows | message-node/messages-stats.js:68-88 | under the guard as written, a `nodesStat` key holding a number throws in its callback, and the corrected guard skips it |
| MessagesStats.AsWrittenNodesStatNeverSettles | message-node/messages-stats.js:43-110 | with the guard as written, the single key `<prefix>:stats:<guid>:nodesStat` holding an integer leaves the promise unsettled, while with the corrected guard no GET fails and the empty report is delivered |
| MessagesStats.ThrowsIffGetFails | message-node/messages-stats.js:64-90 | for any field other than `nodesStat`, a key's callback throws under the guard as written exactly when its GET fails under the corrected guard |
| MessagesStats.AsWrittenAgreesWithoutNodesStat | message-node/messages-stats.js:43-110 | when no key's field is `nodesStat`, getStats as written settles exactly as the corrected one: delivered, with the same fold, exactly when there is a key and no GET fails |
| MessagesHandler.ErrorKeysAreNotMessages | message-node/messages-handler.js:9-11 | error records never fall under the pattern the drain scans |
| MessagesHandler.MessagesAreNotErrorKeys | message-node/messages-handler.js:9-11 | message keys never fall under the error-record prefix |
| MessagesHandler.HandlerOutcomeCounted | message-node/messages-handler.js:33-45 | a claimed message counts as handled when the handler returns, as a handle error when it throws and its record is saved, and nowhere when the save fails |
| MessagesHandler.PageCountsBounded | message-node/messages-handler.js:30-47 | a page moves `handled + handleErrors` by at most its number of keys |
| MessagesHandler.PassCounts | message-node/messages-handler.js:16-67 | a pass with statistics has `scanned` equal to every key SCAN delivered and `handled + handleErrors <= scanned`; only the first SCAN's failure gives no statistics |
| MessagesHandler.PageCountsEveryMessage | message-node/messages-handler.js:30-47 | with distinct present non-empty keys and no store error, every key counts as handled or as a handle error |
| MessagesHandler.PageFrame | message-node/messages-handler.js:30-47 | a page touches no key other than its own and error records |
| MessagesHandler.PageClaims | message-node/messages-handler.js:33 | every key a page claims successfully is gone afterwards |
| MessagesHandler.PassClaims | message-node/messages-handler.js:16-67 | every key the pass claims successfully is gone afterwards |
| MessagesHandler.PassDrainsMessages | message-node/messages-handler.js:16-67 | a full pass over a static store whose claims succeed leaves no message key |
| MessagesHandler.Handler.constructor | message-node/messages-handler.js:4-14 | the pattern is `prefix:messages:*` and the error prefix `prefix:handling_errors:` |
| MessagesHandler.Handler.HandlePage | message-node/messages-handler.js:30-47 | the store and the two counters after the `for` loop are those of the page specification |
| MessagesHandler.Handler.HandleMessages | message-node/messages-handler.js:16-67 | the store and the result of the pass from SCAN reply i on are those of the recursive specification at that reply |
| NodeControl.RunningStates | message-node/index.js:8-35 | `isRunning` holds exactly in display, handler and generator mode |
| NodeControl.InitValid | message-node/index.js:17-27 | a new node satisfies the invariant and is neither running nor generator |
| NodeControl.StepValid | message-node/index.js:41-193 | every event keeps the invariant (fresh timer ids, a generator holds a lock and has no election timer, the handling slot holds a drain for a handler or a write for a generator, display mode runs nothing, the budget stays at or below 1000000 and moves only under `testLimit`) |
| NodeControl.RunValid | message-node/index.js:41-193 | every state reachable from construction satisfies the invariant |
| NodeControl.StopEffect | message-node/index.js:55-65 | stop: NOT_RUN, the three slots cleared, the lock released only by a generator, so a second stop releases nothing; calls in flight are not cancelled |
| NodeControl.SetupGeneratorEffect | message-node/index.js:92-101 | generator holding the lock, no election or drain timer, extend timer armed for the lock, one pass of the generation loop |
| NodeControl.LockAcquiredEffect | message-node/index.js:121-124 | a won election makes the node generator with the lock, the extend timer and the generation loop |
| NodeControl.LockFailedEffect | message-node/index.js:125-130 | a lost election makes the node handler only if it was not running; the election timer is re-armed unless the node is generator |
| NodeControl.ExtendFailedEffect | message-node/index.js:141-146 | a failed extension: handler, extend timer cleared, drain armed, election slot left exactly as it was |
| NodeControl.DemotedGeneratorStopsCompeting | message-node/index.js:105-146 | right after a failed extension with no lock attempt pending, the node is handler, its election slot holds no pending timer and no lock attempt is in flight |
| NodeControl.OutOfElectionStep | message-node/index.js:55-193 | every event other than start() keeps a node with no pending election timer and no lock attempt in that condition, and never makes a non-generator generator |
| NodeControl.OutOfElectionRun | message-node/index.js:55-193 | the same over any run of events without start() |
| NodeControl.DemotedGeneratorLeavesElection | message-node/index.js:105-146 | a generator out of the election that fails to extend becomes a handler, stays out of the election and never becomes generator again over any run without start() |
| NodeControl.ExtendOkEffect | message-node/index.js:136-149 | a successful extension re-arms the extend timer with the returned lock, and only for a running generator |
| NodeControl.HandleMessagesGuard | message-node/index.js:153-164 | the drain loop arms a timer exactly when the node is running and not generator |
| NodeControl.GenerateMessagesLoopGuard | message-node/index.js:167-186 | the generation loop acts only for a running generator with budget left, spends one unit under `testLimit`, writes at once in the test environment and otherwise arms a timer in the handling slot |
| NodeControl.LockAcquiredSpendsBudget | message-node/index.js:121-177 | a won election spends one unit of the budget unless it is spent |
| NodeControl.StepSpendsBudget | message-node/index.js:167-177 | under `testLimit` each event lowers the budget by the number of generation passes it makes |
| NodeControl.RunSpendsBudget | message-node/index.js:167-177 | over any run, the budget left plus the passes made is the budget at the start |
| NodeControl.GenerationBudget | message-node/index.js:167-177 | under `testLimit` a node makes at most 1000000 generation passes |
| NodeControl.StrayLockRevivesDemotedNode | message-node/index.js:41-146 | the run start, election timer, stop, start, election timer, won lock, extend timer, failed extension leaves a handler with no election timer pending and a lock attempt still in flight, whose success makes it generator again |
| NodeControl.RunAppend | message-node/index.js:41-193 | running two lists of events one after the other is running their concatenation |
| NodeControl.StopThenLockSettles | message-node/index.js:55-130 | a lock attempt in flight survives stop() and brings the stopped node back as generator or handler |
| NodeControl.StopThenExtendFails | message-node/index.js:55-65 | a lease extension in flight survives stop(), and its failure brings the stopped node back as a running handler with its drain timer armed |
| NodeControl.WonElectionMakesGenerator | message-node/index.js:121-124 | a won election makes the node generator whatever its state |
| NodeControl.LostElectionWhenStopped | message-node/index.js:125-130 | a lost election turns a stopped node into a handler |
| NodeControl.OrphanedGenerationTimer | message-node/index.js:182-184 | after a demotion outside the test environment, stop() leaves the generation timer pending and it still issues a write |
| NodeControl.StartTwiceOrphansElectionTimer | message-node/index.js:41-119 | a second start() arms a second election timer and the first survives stop() |
| MessageNode.ShowPage | message-node/index.js:204-214 | one report per key of the page |
| MessageNode.ShowPageShape | message-node/index.js:204-214 | one report per key, and the page only deletes its own keys |
| MessageNode.ShowPageReportAt | message-node/index.js:204-214 | with distinct keys, key j is reported from what it held before the pass and is gone unless its read failed |
| MessageNode.ShowPageLastReport | message-node/index.js:204-214 | the last key of a page, not repeated earlier, is reported from what it held before the pass and is gone unless its read failed |
| MessageNode.ShowPageEarlierReport | message-node/index.js:204-214 | handling one more key leaves the reports of the earlier keys alone and deletes nothing back |
| MessageNode.DisplayReportsEveryKey | message-node/index.js:196-217 | the display pass writes one report per key SCAN delivered |
| MessageNode.DisplayOnlyDeletes | message-node/index.js:196-217 | whatever the display pass leaves holds what it held before |
| MessageNode.SavedErrorIsPrinted | message-node/index.js:207-210 | a record the handler saved is printed with its stamp, the failed message and the stack |
| MessageNode.Node.constructor | message-node/index.js:17-27 | NOT_RUN, or DISPLAY_ERRORS in display mode, with the budget at 1000000, and the three helpers built from the prefix and guid |
| MessageNode.Node.IsRunning | message-node/index.js:33-35 | running exactly when the state is not NOT_RUN |
| MessageNode.Node.IsGenerator | message-node/index.js:37-39 | generator exactly in GENERATOR, and then running |
| MessageNode.Node.SetTimeout | message-node/index.js:119-182 | a timer is added under a fresh id |
| MessageNode.Node.ClearTimeout | message-node/index.js:67-89 | the slot's timer stops being pending when the slot is set |
| MessageNode.Node.TestGeneratorLock | message-node/index.js:115-133 | moves the node as `NodeControl.TestGeneratorLock` |
| MessageNode.Node.ExtendGeneratorLock | message-node/index.js:136-150 | moves the node as `NodeControl.ExtendGeneratorLock` |
| MessageNode.Node.HandleMessages | message-node/index.js:153-164 | moves the node as `NodeControl.HandleMessages` |
| MessageNode.Node.GenerateMessage | message-node/index.js:188-193 | issues one write |
| MessageNode.Node.GenerateMessagesLoop | message-node/index.js:167-186 | moves the node as `NodeControl.GenerateMessagesLoop` |
| MessageNode.Node.SetupGenerator | message-node/index.js:92-101 | moves the node as `NodeControl.SetupGenerator` |
| MessageNode.Node.SetupHandler | message-node/index.js:105-111 | moves the node as `NodeControl.SetupHandler` |
| MessageNode.Node.Stop | message-node/index.js:55-65 | moves the node as the stop event and keeps the invariant |
| MessageNode.Node.Start | message-node/index.js:41-53 | in display mode the store and reports are those of the display pass; otherwise the election timer is armed unless generator |
| MessageNode.Node.ShowPageKeys | message-node/index.js:204-214 | the store and reports after the `for` loop are those of the page specification |
| MessageNode.Node.DisplayErrorsPass | message-node/index.js:196-217 | the store, reports and outcome after the `while` loop are those of the display specification |
| MessageNode.Node.TimerFires | message-node/index.js:119-184 | a fired timer starts its call and keeps the invariant |
| MessageNode.Node.LockAcquired | message-node/index.js:121-124 | moves the node as the won election and keeps the invariant |
| MessageNode.Node.LockFailed | message-node/index.js:125-130 | moves the node as the lost election and keeps the invariant |
| MessageNode.Node.ExtendSucceeded | message-node/index.js:141-148 | moves the node as the successful extension and keeps the invariant |
| MessageNode.Node.ExtendFailed | message-node/index.js:142-145 | moves the node as the failed extension and keeps the invariant |
| MessageNode.Node.DrainAndCount | message-node/index.js:158-160 | the store after handleMessages then incrStats, and whether that chain resolves |
| MessageNode.Node.DrainFinished | message-node/index.js:158-162 | the drain's store effect, and the loop re-armed only when the chain resolves |
| MessageNode.Node.WriteAndCount | message-node/index.js:189-190 | the write with the counter advanced as written (never reset), then the generated counter incremented whether or not the write failed |
| MessageNode.Node.GenerationSettles | message-node/index.js:190-191 | the generation loop goes on only when the increment resolved |
| MessageNode.Node.GenerationFinished | message-node/index.js:188-193 | the write and the count, then the loop goes on only when the increment resolved |
| App.ParseArgs | app.js:1-27 | the flags and the prefix after the loop are those of the fold over the arguments |
| App.ParsedFlags | app.js:7-16 | each flag is on exactly when its word is an argument, and is never switched off |
| App.ApplyArgPrefix | app.js:18-26 | an argument moves the prefix only when it is accepted |
| App.ParsedPrefixDefault | app.js:3-26 | with no accepted argument the prefix is `messages-cluster-app` |
| App.ParsedPrefixLast | app.js:6-27 | otherwise the prefix is the untrimmed value of the last accepted argument |
| App.ParsedPrefixNotBlank | app.js:3-24 | the prefix is never blank |
| App.LockResourceIsNotScanned | app.js:39 | the generator lock key is outside both namespaces a node scans |

## Left out

- Redlock and the Redis client are foreign libraries. A lock attempt or an
  extension is an event that succeeds or fails, and the store is a map with
  injected errors.
- The Redlock instance creation in start() and its options are not modelled.
- Timer intervals and lease TTLs are not modelled. A timer is only pending or
  cleared, and when it fires is the caller's choice of event.
- Cross-process mutual exclusion and failover timing involve several processes
  and real time, so they are not modelled.
- The awaits inside one drain and inside one write are not interleaved with
  other events. Each settles as one event (`DrainFinished`, `GenerationFinished`).
- `Date.now()`, `randomString.generate()`, the guid and the handler's
  `Math.random` failure are inputs.
- Console output is not modelled. `console.log` of the counts in incrStats is
  not modelled at all, and the display pass's log lines are reduced to `Report`
  values.
- The COUNT argument of SCAN is not modelled, and neither is the constructor's
  assignment of `scanBatchCount`, which nothing reads.
- SCAN replies that are neither an error nor a `[cursor, keys]` pair are not
  modelled, and neither is glob matching. The pages are supplied as inputs.
- MessagesHandler.Handler.HandleMessages: requires that some SCAN reply ends the
  pass. A scan that never returns to cursor "0" never settles, and that case is
  not modelled.
- MessageNode.Node.Start: the same requirement holds for the display pass.
- MessageNode.Node.DrainFinished: the same requirement holds for the drain.
- MessageNode.Node.DrainAndCount: the same requirement holds for the drain.
- RedisHelpers.Parse: accepts only the exact text `JSON.stringify` writes for an
  error record. Other valid JSON in an error key is reported as a parse error
  rather than printed.
- MessagesStats.Stats.GetStats: the callback order of the GETs is not modelled.
  The aggregation is a fold over the keys in order.
- MessagesStats.Stats.GetStats: filters fields with the corrected counter-name
  guard, not the `hasOwnProperty` test as written. The guard as written is
  modelled by `GetStatsAsWritten`, which never settles on a numeric `nodesStat`
  key and otherwise agrees (`AsWrittenAgreesWithoutNodesStat`). The string
  concatenation into `statResult.nodesStat` that precedes the throw is not
  modelled.
- MessagesStats.Stats.GetStats: a GET error, which throws inside a store callback
  and ends the process, is modelled as a report that is never delivered.
- JavaScript number arithmetic is modelled only for the generator's counter,
  whose `++` stops at 2^53.
- `parseInt` is exact. Values beyond 2^53, which JavaScript numbers round, are
  not modelled.
- An extension that calls back with neither an error nor a lock is not
  modelled. `ExtendOk` always carries a lock.
- A node guid or prefix containing `:` is allowed, but the key-parsing lemmas
  assume the guid has none.
- Object keys such as `__proto__` are not modelled. `nodesStat` is a map.
- Whitespace for `trim()` is the ECMAScript set of the Basic Multilingual Plane
  characters listed in `IsJsWhitespace`.
- run-1m-test.js and test/index.js are not part of this model.

## Findings

| source | as written | input that shows it | evidently intended | confidence | as-written member | corrected member |
|---|---|---|---|---|---|---|
| message-node/messages-stats.js:68 | the field guard asks whether the result object has the field as an own property, and `nodesStat` is one | a key `app:stats:g:nodesStat` holding `5`: `statResult.nodesStat` becomes the string `[object Object]5`, so the per-node breakdown is lost and the per-node assignment that follows throws in class (strict) code | only the four counter names `generated`, `handled`, `scanned`, `handle_errors` are accepted | not executed | MessagesStats.AsWrittenNodesStatNeverSettles | MessagesStats.MetricOf |
| message-node/messages-generator.js:26 | the reset guard compares the counter with `Math.MAX_SAFE_INTEGER`, which is `undefined` because the constant lives on `Number`, so the counter is never reset | counter 2^53 - 2 and a successful SET: the counter becomes 2^53 - 1, not 0; from 2^53 on `++` no longer moves it, and every later write in one millisecond reuses one key | the counter resets to 0 when it reaches `Number.MAX_SAFE_INTEGER`, so it stays below it | not executed | MessagesGenerator.WrittenCounterNeverResets | MessagesGenerator.CounterResets |
