# A Dafny model of the hotlist sync worker and its utilities

This project models the core of a small todo-list application in Dafny. It has three parts.

- **The sync-worker protocol** of `src/utils/createSyncWorker.js`. The host creates a worker from a plug-in script and waits for the worker's `'ready'` message (the handshake). It then calls the plug-in with `post`. Each call carries an id taken from one module-level counter. The call settles on the first reply with its id, or it is rejected when its timer fires, which also destroys the worker. Inside the worker, the script wrapper sends each host call through a table of six routes; a route the plug-in leaves out is a stub that answers `undefined`. The wrapper also numbers the script's own `_post` calls. The host answers those calls through a broker. On the demo page the broker answers only `fetch` (`demo.js`).
- **The three sync plug-ins** in `sync/`:
  - `dummy.js`: an in-memory map behind a delay;
  - `test-upsert-only.js`: per-key stores with a single upsert;
  - `wip.js`: GraphQL mutations and the ladder of checks that classifies each response.
- **The utilities**:
  - `deepAssign` and `isObject`;
  - `storeGroup`;
  - `createTodoItem`;
  - `getLinesFromText`, `formatURL` and `isDomain`;
  - `stringToRegExp` and `needleToTitle`;
  - `eventMatchesKey` and `eventMatchesShortcut`;
  - the demo page's state migration, its "Clear completed" action and its toolbar count.

The model is functional throughout.

- **Values.** JavaScript values are one datatype, `JsValue.Value`. A property read on `null` or `undefined` gives a thrown `TypeError`, modelled as a `Failure`. Truthiness, `typeof` and `String()` are written out.
- **Host and worker.** Each side is an immutable record. Each has a `Step` function over explicit events:
  - a delivered envelope;
  - a timer expiry;
  - the worker's `error` event;
  - an API call;
  - a script route finishing;
  - the script's own `_post`;
  - `destroy`.
- **Listeners and timers** are flags on the record.
- **Pending calls** are maps keyed by call id.
- **The channel.** `SyncChannel` joins the two sides. It holds each side's log of posted messages and a read cursor per direction. Delivery is therefore in order and at most once in each direction, and a terminated worker neither receives nor sends.

Module layout:

| module | file | models |
|---|---|---|
| `Wrappers`, `Promises` | `wrappers.dfy`, `promises.dfy` | `Option`/`Result`, and promise states where the first settlement wins |
| `Text` | `text.dfy` | `trim`, one-character `split`, `join`, `includes`, ASCII `toLowerCase`, decimal rendering |
| `JsValue` | `js_value.dfy` | values, truthiness, property reads, `String()`, `Array.prototype.join` |
| `Envelopes` | `envelope.dfy` | the `'ready'`, `['message', id, cmd, ...args]` and `['reply', id, err, res]` envelopes |
| `SyncHost`, `SyncWorker`, `SyncChannel` | `sync_host.dfy`, `sync_worker.dfy`, `sync_channel.dfy` | `createSyncWorker.js` |
| `DemoBroker`, `DemoState` | `demo_broker.dfy`, `demo_state.dfy` | the `demo.js` parts named above |
| `SyncDummy`, `SyncUpsert`, `SyncWip` | `sync_dummy.dfy`, `sync_upsert.dfy`, `sync_wip.dfy` | the plug-ins |
| `Objects`, `StoreGroup`, `TodoItem`, `Lines`, `Url`, `Needle`, `Shortcut` | one file each | the utilities |

Four behaviours of the code are easy to misread:

- **A timeout does not drain other calls.** When a `post` times out, the worker is terminated and that call is rejected. The other pending calls keep their listeners and are rejected by their own timers later. `SyncHost.PostTimeoutRejects` states this.
- **A bad first message does not destroy the worker.** If the first message is not `'ready'`, creation is rejected and the worker is *not* terminated. Only the init timer terminates it, and that timer has been cleared by then. `SyncHost.InitOutcomes` states this.
- **One counter for all workers.** The call-id counter `uid` lives at module level and is shared by every worker created. `SyncHost.Create` takes its current value.
- **A throwing route is answered twice.** A script route that throws gets an error reply and then a second `['reply', id, undefined, undefined]`. The host settles from the first reply only. `SyncChannel.ThrowingCallSettlesOnFirstReply` states this.

Behaviour of the code that looks unintended is modelled as written and stated by a lemma:

- **The toolbar counts the wrong field.** It counts items with a truthy `done`, but restored items carry `isDone`. So after migration every item counts as remaining (`DemoState.ToolbarCountsMigratedItemsAsRemaining`).
- **`wip`'s `insertTodo` joins the raw error objects.** Its message therefore reads `Request failed [object Object]` (`SyncWip.InsertErrorsShowObjects`). Update and delete format the errors through `listErrors`.
- **`test-upsert-only` keys its store by the wrong thing.** It destructures `storeKey` from the props and gets the prop object, not its value. With its own props the store is named `"[object Object]"` (`SyncUpsert.DefaultPropsStoreKey`).
- **`upsertTodo` cannot be reached.** It is not one of the six route names, so a call through the worker cannot reach it. `insertTodo`, `updateTodo` and `deleteTodo` reach the stubs (`SyncUpsert.OtherCommandsAreStubs`).
- **The unsubscriber keeps the wrong subscribers.** `storeGroup`'s returned unsubscriber keeps only the subscribers equal to `fn`, so it removes every other one (`StoreGroup.UnsubscribeKeepsOnlyFn`).
- **404 wins over `ok`.** `wip`'s update and delete check for status 404 before `ok`, so a 404 is "not found" (`false`), not a failure. Insert has no 404 case (`SyncWip.NotFoundIsFalseOnlyForChanges`).

## Model

| member | source | states |
|---|---|---|
| `JsValue.Get` | sync/dummy.js:55-58 | a property read throws exactly on `null`/`undefined`, with the read-of-nullish `TypeError`; on an object it yields the own field or `undefined` |
| `JsValue.GetIndex` | demo.js:196-197 | an index read throws exactly on `null`/`undefined`; on an array it yields the element or `undefined` past the end |
| `JsValue.WithFields` | src/utils/deepAssign.js:16 | replacing an object's own fields keeps it an object whose fields are exactly the new ones |
| `Text.TrimStart` | src/utils/getLinesFromText.js:7 | the result is a suffix of the input that does not start with whitespace |
| `Text.TrimEnd` | src/utils/getLinesFromText.js:7 | the result is a prefix of the input that does not end with whitespace |
| `Text.TrimStartDropsWhitespace` | src/utils/getLinesFromText.js:7 | everything the leading trim drops is ECMAScript whitespace |
| `Text.TrimEndDropsWhitespace` | src/utils/getLinesFromText.js:7 | everything the trailing trim drops is ECMAScript whitespace |
| `Text.Trim` | src/utils/needleToTitle.js:9 | `trim` gives a string with no whitespace at either end, made only of characters of its input |
| `Text.TrimOfTrimmed` | src/utils/getLinesFromText.js:7 | trimming a string that has no outer whitespace returns it unchanged |
| `Text.Split` | src/utils/getLinesFromText.js:6 | `split` on one character gives one piece more than there are separators, and no piece contains the separator |
| `Text.SplitWithoutSeparator` | src/utils/needleToTitle.js:9 | a string without the separator splits into itself alone |
| `Text.SplitAfterPiece` | src/utils/needleToTitle.js:9 | splitting `a + sep + b`, where `a` has no separator, gives `a` first and then the pieces of `b` |
| `Text.SplitAtSeparator` | src/utils/getLinesFromText.js:6 | splitting at a separator gives the pieces of the text before it followed by the pieces of the text after it |
| `Text.SplitEndingInSeparator` | src/utils/getLinesFromText.js:6 | a text ending in the separator has an empty last piece |
| `Text.SplitJoin` | src/utils/getLinesFromText.js:6 | splitting a join on the same separator gives the separator-free pieces back (round trip) |
| `Text.ContainsAt` | src/utils/formatURL.js:5 | an occurrence at any position makes `includes` true |
| `Text.Lower` | src/utils/eventMatchesKey.js:22 | `toLowerCase` keeps the length and lowers each ASCII letter in place |
| `Text.NatToString` | sync/test-upsert-only.js:47 | the decimal rendering of a number is a non-empty string of digits |
| `Text.NatToStringRoundTrip` | sync/test-upsert-only.js:47 | reading the decimal rendering back as digits gives the number (round trip) |
| `Text.NatToStringInjective` | sync/test-upsert-only.js:47 | different numbers render as different strings, so ids made from different times differ |
| `SyncHost.Create` | src/utils/createSyncWorker.js:137-209 | a new host has the ready listener and init timer set, no broker listener, no calls, nothing sent, and takes the module counter; the host invariant holds |
| `SyncHost.OnFirstMessage` | src/utils/createSyncWorker.js:141-151 | the first message removes the ready listener and clears the init timer; creation resolves with the API exactly when it is `'ready'` (the broker listener is then added), any other message rejects it, and a settled creation is left as it was |
| `SyncHost.BrokerReplies` | src/utils/createSyncWorker.js:118-135 | the broker answers only `'message'` envelopes and only when `onWorkerMessage` exists; it sends at most one reply, with the same id: `[undefined, res]` on fulfilment, `[err]` on rejection, nothing while pending |
| `SyncHost.OnCallMessage` | src/utils/createSyncWorker.js:221-236 | a call's listener ignores everything but a reply with its own id; that reply stops the listener and the timer and settles the call, rejected with `Failed to run` when `err` is truthy, fulfilled with `res` otherwise |
| `SyncHost.StepPreservesInv` | src/utils/createSyncWorker.js:217-257 | every event keeps the host's bookkeeping consistent: ids below the counter, each listener live exactly while its timer is armed and its call pending, every sent call registered, sent ids increasing |
| `SyncHost.DeliveryPreservesInv` | src/utils/createSyncWorker.js:118-135 | delivering any message to a live host keeps the invariant |
| `SyncHost.PostPreservesInv` | src/utils/createSyncWorker.js:254-256 | `post` keeps the invariant |
| `SyncHost.InvokeTakesFreshId` | src/utils/createSyncWorker.js:254-256 | a call takes the counter's value, which no earlier call or sent message used; the counter goes up by one; the call is registered pending and sent with that id |
| `SyncHost.ReplyMatchedById` | src/utils/createSyncWorker.js:224-233 | a reply reaches only the call with its id: that call settles once on the `err` flag, every other call and an already settled one are unchanged |
| `SyncHost.NonReplyLeavesCalls` | src/utils/createSyncWorker.js:224 | a message that is not a reply leaves every call as it was |
| `SyncHost.StaleReplyIsInert` | src/utils/createSyncWorker.js:224-229 | after the handshake, a reply for an unknown or already settled id changes nothing at all |
| `SyncHost.PostTimeoutRejects` | src/utils/createSyncWorker.js:239-251 | a timed-out call is rejected with `SyncWorker timed out`, its listener removed, the worker terminated; other calls and the sent log are untouched |
| `SyncHost.InitOutcomes` | src/utils/createSyncWorker.js:141-151 | from creation, `'ready'` resolves with the seven-member API; any other first message rejects without terminating; silence until the init timer rejects and terminates |
| `SyncHost.DestroyIsIdempotent` | src/utils/createSyncWorker.js:112-116 | `destroy` terminates the worker, and a second `destroy` changes nothing |
| `SyncHost.DeadWorkerIsSilent` | src/utils/createSyncWorker.js:112-116 | a terminated worker's messages change nothing |
| `SyncHost.RunPreservesInv` | src/utils/createSyncWorker.js:217-257 | the invariant holds after any sequence of events |
| `SyncHost.StepKeepsSettled` | src/utils/createSyncWorker.js:227-233 | one event never forgets, renames or unsettles a call, and never lowers the counter |
| `SyncHost.SettlementIsFinal` | src/utils/createSyncWorker.js:227-233 | exactly-once settlement: after any sequence of events a settled call keeps its outcome |
| `SyncHost.IdsNeverReused` | src/utils/createSyncWorker.js:5 | over any sequence of events the counter only grows, no call is forgotten, and every newly registered id lies between the old and the new counter |
| `SyncHost.StepTakesIdsInOrder` | src/utils/createSyncWorker.js:254 | one event registers new calls only under ids taken from the counter |
| `SyncWorker.RouteOf` | src/utils/createSyncWorker.js:40-57 | a command outside the six route names has no route; a route name the script defines is the script's function; any other route name is the stub |
| `SyncWorker.Start` | src/utils/createSyncWorker.js:97 | a started worker has posted `'ready'` and nothing else, and has no pending `_post` calls |
| `SyncWorker.Replies` | src/utils/createSyncWorker.js:74-87 | a returned value is answered by one reply `[undefined, value]`; a thrown error by an error reply followed by an empty reply; every reply carries the call's id |
| `SyncWorker.StepPreservesInv` | src/utils/createSyncWorker.js:16-98 | every event keeps the `_post` ids below `_uid` and keeps `_message_routes` exactly the pending `_post` calls |
| `SyncWorker.PostTakesFreshId` | src/utils/createSyncWorker.js:18-31 | `_post` uses an id no earlier `_post` had, stores its route under it, and sends the call with that id |
| `SyncWorker.ReplyFiresRouteOnce` | src/utils/createSyncWorker.js:61-71 | a reply with a known id settles that `_post` (rejected on a truthy error), deletes its route and touches no other; the same reply again changes nothing |
| `SyncWorker.UnknownReplyIgnored` | src/utils/createSyncWorker.js:64 | a reply with no route is ignored |
| `SyncWorker.StubAnswersUndefined` | src/utils/createSyncWorker.js:40-45 | a route the plug-in leaves out answers with a single `undefined` reply |
| `SyncWorker.UnknownCommandAnsweredTwice` | src/utils/createSyncWorker.js:79-86 | a command outside the table throws in dispatch, so it gets a `TypeError` reply and then an empty one |
| `SyncWorker.ThrowingRouteAnsweredTwice` | src/utils/createSyncWorker.js:81-86 | a throwing route sends an error reply and then a second, empty reply, and stops running |
| `SyncChannel.Open` | src/utils/createSyncWorker.js:100-209 | a newly joined host and worker satisfy the channel invariant |
| `SyncChannel.StepPreservesInv` | src/utils/createSyncWorker.js:217-257 | every channel event keeps both sides' invariants and the read cursors within the logs |
| `SyncChannel.HandshakeResolves` | src/utils/createSyncWorker.js:141-151 | delivering the worker's first message resolves creation with the API and adds the broker listener, with nothing left in flight |
| `SyncChannel.CallReachesWorker` | src/utils/createSyncWorker.js:254-256 | an API call registers a pending record under the next id, and delivering it runs the worker's dispatch on exactly that message |
| `SyncChannel.StubCallResolvesUndefined` | src/utils/createSyncWorker.js:40-45 | a call to a route the plug-in leaves out resolves with `undefined` after one round trip |
| `SyncChannel.ThrowingCallSettlesOnFirstReply` | src/utils/createSyncWorker.js:81-86 | a throwing route's caller is rejected by the first reply; the second reply leaves the host exactly as it was |
| `SyncChannel.BrokeredCallRoundTrip` | src/utils/createSyncWorker.js:118-135 | a script `_post` crosses to the broker and back: the broker's fulfilment fulfils it, a truthy rejection rejects it, a falsy one resolves `undefined`, and a pending broker leaves it pending |
| `SyncChannel.TimedOutChannelIsSilent` | src/utils/createSyncWorker.js:239-251 | after a timeout no delivery and no worker event changes either side |
| `DemoBroker.TransformSyncSrc` | demo.js:212-216 | the transformed source is the plug-in source unchanged after a prefix that contains the `fetch` binding to `_post('fetch', ...)` |
| `DemoBroker.ResponseObject` | demo.js:224-235 | the resolved object carries the response's `text`, the parsed `json` (or `undefined`), `ok`, `status` and `statusText` |
| `DemoBroker.OnSyncMessage` | demo.js:218-239 | any command but `fetch` is rejected with `'Invalid command'`; a network failure rejects with its reason; a failing body read leaves it pending; a fulfilment is always the response object of a completed fetch |
| `DemoBroker.ScriptFetch` | demo.js:212-216 | the injected `fetch` is a `_post` of `'fetch'` with the URL and the options |
| `DemoBroker.FetchRoundTrip` | demo.js:222-235 | across the channel, a plug-in `fetch` whose request completes resolves with the response object |
| `DemoBroker.FetchFailureRoundTrip` | demo.js:238 | across the channel, a plug-in `fetch` that fails on the network is rejected with the failure |
| `DemoBroker.OtherCommandRefused` | demo.js:220 | across the channel, any other command a script posts is rejected with `'Invalid command'` |
| `DemoState.MigrateItem` | demo.js:198-200 | an old item becomes exactly `{value, isDone}` with `isDone` read from `done`; a nullish item throws |
| `DemoState.MigrateItems` | demo.js:198-200 | the migration succeeds exactly when no item is nullish, and then rewrites each item one for one |
| `DemoState.Migrate` | demo.js:191-204 | a restored state differs from the parsed one only in its `items`, which are then an array |
| `DemoState.Restore` | demo.js:191-195 | a missing, unparsable or falsy saved state restores as `{}` |
| `DemoState.MigrationRewritesItems` | demo.js:196-201 | when the first item has a boolean `done` and none is nullish, the items are rewritten and every other field is kept |
| `DemoState.EmptyItemsKeepState` | demo.js:196 | an empty item list is left as it was |
| `DemoState.NullishItemKeepsState` | demo.js:196-203 | a nullish item makes the migration throw, and the caught error leaves the state as parsed |
| `DemoState.MigrateIdempotent` | demo.js:196-201 | migrating a restored state again changes nothing |
| `DemoState.Keeps` | demo.js:48-53 | deciding whether an item is kept throws exactly when the item or its `value` is nullish |
| `DemoState.ClearCompleted` | demo.js:48-53 | "Clear completed" succeeds exactly when every item can be examined, and never adds items |
| `DemoState.ClearCompletedKeepsExactly` | demo.js:48-53 | what survives is exactly the input items with a non-empty `value` and a falsy `isDone` |
| `DemoState.ClearCompletedCons` | demo.js:48-53 | the first item survives, in front of the rest, exactly when it is kept |
| `DemoState.ClearCompletedAppend` | demo.js:48-53 | the filter keeps the original order: clearing a concatenation is concatenating the cleared parts |
| `DemoState.ClearCompletedIdempotent` | demo.js:48-53 | clearing twice is clearing once |
| `DemoState.CountDone` | demo.js:143-152 | the count of done items succeeds exactly when no item is nullish; it is all of them exactly when every item has a truthy `done`, and zero exactly when none has |
| `DemoState.ToolbarIcon` | demo.js:129-161 | no items or an empty list shows the pen; a non-empty list shows the check exactly when every item is done; otherwise it shows the count of items without a truthy `done` |
| `DemoState.ToolbarCountsMigratedItemsAsRemaining` | demo.js:141-154 | migrated `{value, isDone}` items are all counted as remaining, whatever their `isDone` |
| `SyncDummy.IdAndNameBounds` | sync/dummy.js:21-31 | the id is 3 to 8 lower-case letters and the name 3 to 32 characters, as documented |
| `SyncDummy.Props` | sync/dummy.js:37-43 | the default props give a delay of 2000 ms |
| `SyncDummy.Delay` | sync/dummy.js:55-58 | reading `props.delay.value` throws exactly when the props or their `delay` are nullish |
| `SyncDummy.NewId` | sync/dummy.js:7 | a new id is the time followed by the random number: a string of at least two digits |
| `SyncDummy.InsertTodo` | sync/dummy.js:51-70 | after waiting the delay, the serialised data is stored under the new id, `{id}` is returned, and nothing else changes; a bad delay prop throws before the store is touched |
| `SyncDummy.UpdateTodo` | sync/dummy.js:79-100 | after waiting the delay, a present id is overwritten and true returned, other ids untouched; an absent id gives false with the store unchanged |
| `SyncDummy.DeleteTodo` | sync/dummy.js:108-129 | after waiting the delay, a present id alone is removed and true returned; an absent id gives false with the store unchanged |
| `SyncDummy.InsertThenDelete` | sync/dummy.js:5-18 | deleting what was just inserted under a new id restores the store |
| `SyncDummy.InsertThenUpdate` | sync/dummy.js:5-14 | updating what was just inserted replaces its value and touches no other id |
| `SyncUpsert.LoadStore` | sync/test-upsert-only.js:3 | loading an unknown key gives an empty store, a known one its saved store |
| `SyncUpsert.SaveStore` | sync/test-upsert-only.js:4 | a saved store loads back, and every other key loads as before |
| `SyncUpsert.StoreKey` | sync/test-upsert-only.js:41 | the store key defaults to `'default'` when the props have no `storeKey` |
| `SyncUpsert.UpsertTodo` | sync/test-upsert-only.js:36-64 | nullish props throw and save nothing |
| `SyncUpsert.InsertWithoutId` | sync/test-upsert-only.js:37-48 | without an id the data is stored under the decimal time and `{id, url}` names it; other stores are untouched |
| `SyncUpsert.MissingIdGivesFalse` | sync/test-upsert-only.js:56-57 | an id with no truthy entry gives false and saves nothing |
| `SyncUpsert.PresentIdSetsCompleted` | sync/test-upsert-only.js:59-63 | a present entry gets only its `completed` field overwritten from the data, true is returned, and everything else is kept |
| `SyncUpsert.InsertThenComplete` | sync/test-upsert-only.js:36-64 | an entry inserted without an id can be completed through the id it returned |
| `SyncUpsert.OtherCommandsAreStubs` | src/utils/createSyncWorker.js:40-57 | through the worker, this plug-in's insert, update and delete reach the stubs, and `upsertTodo` has no route |
| `SyncUpsert.Props` | sync/test-upsert-only.js:22-27 | the default props hold a `storeKey` object |
| `SyncUpsert.DefaultPropsStoreKey` | sync/test-upsert-only.js:41-43 | with the plug-in's own props the store is named `"[object Object]"` |
| `SyncWip.Props` | sync/wip.js:17-23 | the default props hold an empty API key |
| `SyncWip.ApiKey` | sync/wip.js:17-23 | reading `props.apiKey.value` throws exactly when the props or their `apiKey` are nullish |
| `SyncWip.GraphQL` | sync/wip.js:31-41 | a key without length sends no request; otherwise one POST to the endpoint with a bearer header carrying the key |
| `SyncWip.Send` | sync/wip.js:31-41 | with an empty API key nothing is sent and the awaited response is `undefined` |
| `SyncWip.Completed` | sync/wip.js:111 | `completed` counts exactly when it is truthy; it defaults to false |
| `SyncWip.InsertMutation` | sync/wip.js:68-72 | insert sends the text and `completed_at: null` exactly when `completed` is falsy |
| `SyncWip.UpdateMutation` | sync/wip.js:111-118 | update sends the id and text and uses `completeTodo` exactly when `completed` is truthy |
| `SyncWip.RequestFailed` | sync/wip.js:91 | a failed request throws an error whose message begins `Request failed ` |
| `SyncWip.LocationText` | sync/wip.js:52-54 | rendering a location throws exactly when it is nullish |
| `SyncWip.LocationTexts` | sync/wip.js:52-54 | locations render one for one, and only if none is nullish |
| `SyncWip.ErrorText` | sync/wip.js:48-56 | rendering a nullish error throws |
| `SyncWip.ErrorTexts` | sync/wip.js:48-56 | errors render one for one |
| `SyncWip.ListErrors` | sync/wip.js:48-56 | `listErrors` of a non-array throws |
| `SyncWip.LocationValues` | sync/wip.js:52-54 | the location records are the location objects, one for one |
| `SyncWip.ErrorValues` | sync/wip.js:48-56 | the error records are the error objects, one for one |
| `SyncWip.FormatLocations` | sync/wip.js:52-54 | each location formats as `l:<line> c:<column>`, one for one |
| `SyncWip.FormatErrors` | sync/wip.js:48-56 | each error formats as `<message> at <locations>`, one for one |
| `SyncWip.LocationTextsOfValues` | sync/wip.js:52-54 | rendering location objects agrees with the independent formatting of their records |
| `SyncWip.ErrorTextsOfValues` | sync/wip.js:48-56 | rendering error objects agrees with the independent formatting of their records |
| `SyncWip.ListErrorsFormats` | sync/wip.js:48-56 | `listErrors` joins the formatted errors with `', '` |
| `SyncWip.ListErrorsSingle` | sync/wip.js:48-56 | one error at one location renders as `<message> at l:<line> c:<column>` |
| `SyncWip.ClassifyInsert` | sync/wip.js:86-97 | no response throws `'No response'`, a non-ok one `Request failed ...`; a success needs an ok response and is exactly `{id, url}` |
| `SyncWip.ClassifyChange` | sync/wip.js:129-143 | no response throws `'No response'`; status 404 gives false before `ok` is looked at; a non-ok one throws `Request failed ...`; true needs an ok, non-404 response; every success is a boolean |
| `SyncWip.InsertTodo` | sync/wip.js:64-98 | nullish data throws before anything is sent |
| `SyncWip.UpdateTodo` | sync/wip.js:107-144 | nullish data throws before anything is sent |
| `SyncWip.DeleteTodo` | sync/wip.js:152-177 | nullish props throw before anything is sent |
| `SyncWip.EmptyKeySendsNothing` | sync/wip.js:32 | with an empty API key every mutation throws `'No response'` |
| `SyncWip.DefaultPropsSendNothing` | sync/wip.js:17-23 | with the plug-in's own props every mutation throws `'No response'` |
| `SyncWip.InsertReturnsCreated` | sync/wip.js:97 | a successful insert returns the created todo's `id` and `url` |
| `SyncWip.NotFoundIsFalseOnlyForChanges` | sync/wip.js:134 | a 404 is false for update and delete but a failure for insert |
| `SyncWip.ChangeSucceeds` | sync/wip.js:143 | an ok, non-404 response without errors makes update and delete return true |
| `SyncWip.ReportedErrorsThrow` | sync/wip.js:140 | truthy `json.errors` in an ok, non-404 response make update and delete throw the `listErrors` text |
| `SyncWip.ChangeErrorsThrow` | sync/wip.js:173 | reported GraphQL errors make update and delete throw `Request failed ` with the formatted errors |
| `SyncWip.InsertErrorsShowObjects` | sync/wip.js:94 | insert's error message shows `[object Object]` for a reported error |
| `Objects.IsObject` | src/utils/isObject.js:6 | a falsy input comes back itself; a truthy one gives `true` exactly for non-array objects; the result is truthy exactly for those |
| `Objects.IndexEntries` | src/utils/deepAssign.js:11 | an array's entries are keyed by exactly its decimal indices, each giving the element at that index |
| `Objects.CharEntries` | src/utils/deepAssign.js:11 | a string's entries are keyed by exactly its decimal indices, each giving the one-character string at that index |
| `Objects.Entries` | src/utils/deepAssign.js:11 | `Object.entries` throws exactly on `null`/`undefined`; an object gives its own fields; a boolean or number gives none |
| `Objects.MergeFields` | src/utils/deepAssign.js:11-17 | after merging a source the keys are the union; untouched keys keep their values; non-object source values overwrite; object values replace a non-object target value |
| `Objects.DeepAssign` | src/utils/deepAssign.js:9-21 | the target stays an object and keeps every key; the merge throws exactly when a source is nullish |
| `Objects.NoSourcesKeepTarget` | src/utils/deepAssign.js:10 | with no sources the target is returned unchanged |
| `Objects.SingleSource` | src/utils/deepAssign.js:11-17 | one object source: union of keys, untouched keys kept, scalars overwrite, objects replace non-objects and merge recursively into objects |
| `Objects.DeepAssignAppend` | src/utils/deepAssign.js:10 | sources apply left to right: assigning `a + b` is assigning `a`, then `b` |
| `Objects.LastSourceWins` | src/utils/deepAssign.js:10-16 | for a key the later source sets to a non-object, the later source wins |
| `Objects.MergeSelf` | src/utils/deepAssign.js:11-17 | merging an object's fields into themselves changes nothing |
| `Objects.MergeValueTwice` | src/utils/deepAssign.js:12-16 | applying a source value twice is applying it once |
| `Objects.MergeFieldsTwice` | src/utils/deepAssign.js:11-17 | merging the same source twice is merging it once |
| `Objects.DeepAssignIdempotent` | src/utils/deepAssign.js:9-21 | deep-assigning the same object source twice is doing it once |
| `StoreGroup.Create` | src/utils/storeGroup.js:25-53 | after `init` there is one store per key of the group, made with its value; each store's subscribe-time call has put that value in the state; no one is subscribed, so no one was called |
| `StoreGroup.Notify` | src/utils/storeGroup.js:30-36 | every subscriber is called once, in order, with the state |
| `StoreGroup.KeepOnly` | src/utils/storeGroup.js:63 | the filtered subscribers are exactly the copies of `fn` |
| `StoreGroup.StepPreservesInv` | src/utils/storeGroup.js:13-94 | every event keeps the live subscriptions exactly those of the current stores |
| `StoreGroup.SetReconciles` | src/utils/storeGroup.js:65-88 | after `set` the store keys are the group's keys; kept stores are reused and keep their state entry; a new key gets a new, live store whose subscribe-time call put its value in the state; every store was last set to its value with the options |
| `StoreGroup.SetOfKeptKeysIsQuiet` | src/utils/storeGroup.js:65-88 | a `set` whose keys all have stores calls no subscriber and adds nothing to the state; new values arrive as separate store events |
| `StoreGroup.SetOfNewKeyNotifies` | src/utils/storeGroup.js:25-37 | a `set` that brings one new key calls every subscriber once, in order, with the new state, which holds that key's value |
| `StoreGroup.SetDropsKeys` | src/utils/storeGroup.js:70-76 | a key dropped by `set` leaves the state and its store's subscription ends, so its later values are ignored |
| `StoreGroup.SubscribeCallsAtOnce` | src/utils/storeGroup.js:56-61 | `subscribe` appends `fn` and calls it at once with the current state |
| `StoreGroup.EmitNotifiesAll` | src/utils/storeGroup.js:30-36 | a store's new value is written to the state, then every subscriber is called with the new state, in order |
| `StoreGroup.DestroyKeepsState` | src/utils/storeGroup.js:13-23 | `unsubscribe` ends every store subscription and empties the stores but keeps the state and subscribers |
| `StoreGroup.UnsubscribeKeepsOnlyFn` | src/utils/storeGroup.js:63 | the returned unsubscriber removes every subscriber other than `fn` and keeps `fn` |
| `TodoItem.Defaulted` | src/utils/createTodoItem.js:9-17 | a destructuring default applies exactly when the field is `undefined` |
| `TodoItem.CreateTodoItem` | src/utils/createTodoItem.js:8-28 | the item has exactly the seven fields, each the supplied value or its default; a new id is drawn exactly when no key is given |
| `TodoItem.NoOptionsGivesDefaults` | src/utils/createTodoItem.js:9-17 | without options every field takes its default and the key is a new id |
| `TodoItem.ExtraFieldsDropped` | src/utils/createTodoItem.js:19-27 | fields outside the seven are dropped, and a supplied key is kept without drawing an id |
| `TodoItem.CreateIsIdempotent` | src/utils/createTodoItem.js:8-28 | an item passed in again comes back unchanged, without drawing an id |
| `Lines.TrimAll` | src/utils/getLinesFromText.js:7 | every piece is trimmed, one for one |
| `Lines.DropEmpty` | src/utils/getLinesFromText.js:8 | the filter keeps exactly the non-empty pieces |
| `Lines.DropEmptyAppend` | src/utils/getLinesFromText.js:8 | the filter keeps order: filtering a concatenation is concatenating the filtered parts |
| `Lines.DropEmptyPicks` | src/utils/getLinesFromText.js:8 | the filter's result is the non-empty strings picked out in increasing positions, and every non-empty string is picked |
| `Lines.DropEmptyOfNonEmpty` | src/utils/getLinesFromText.js:8 | pieces that are all non-empty pass unchanged |
| `Lines.TrimAllOfTrimmed` | src/utils/getLinesFromText.js:7 | trimmed pieces pass the trim unchanged |
| `Lines.GetLinesFromText` | src/utils/getLinesFromText.js:4-8 | no line is empty, every line is trimmed and free of line breaks, and there are at most one more lines than line breaks |
| `Lines.LinesAreTrimmedPieces` | src/utils/getLinesFromText.js:6-8 | line `k` is the trim of the `k`-th segment whose trim is not empty: the segments used increase, no line is empty, and no segment with a non-empty trim is skipped |
| `Lines.LinesIdempotent` | src/utils/getLinesFromText.js:5-8 | rejoining the lines with `'\n'` and splitting again gives the same lines |
| `Url.FormatURL` | src/utils/formatURL.js:5 | a URL containing `://` is returned unchanged, any other gets `https://` in front; the result always contains `://` |
| `Url.FormatURLIdempotent` | src/utils/formatURL.js:5 | formatting twice is formatting once |
| `Url.LabelRestIsWordTail` | src/utils/isDomain.js:5 | what follows a label's first character is letters, digits and single hyphens, not ending in a hyphen |
| `Url.WordTailIsLabelRest` | src/utils/isDomain.js:5 | conversely, such a tail is accepted by the label grammar |
| `Url.LabelIsHyphenatedWord` | src/utils/isDomain.js:5 | a label is exactly a non-empty run of letters, digits and hyphens with no leading, trailing or doubled hyphen |
| `Url.SplitOfLower` | src/utils/isDomain.js:5 | splitting a lower-cased text on dots gives the lower-cased pieces |
| `Url.LowerKeepsLabel` | src/utils/isDomain.js:5 | lower-casing does not change whether a piece is a label |
| `Url.LowerKeepsTld` | src/utils/isDomain.js:5 | lower-casing does not change whether a piece is a top-level name |
| `Url.LowerKeepsDomainPieces` | src/utils/isDomain.js:5 | lower-casing every piece does not change whether the pieces form a domain |
| `Url.IsDomainIgnoresCase` | src/utils/isDomain.js:5 | the domain test is case-insensitive |
| `Url.IsDomainRejectsBadDots` | src/utils/isDomain.js:5 | the empty string and strings with a leading, trailing or doubled dot are not domains |
| `Url.LabelDotTldIsDomain` | src/utils/isDomain.js:5 | a label, a dot and a top-level name of two or more letters form a domain |
| `Needle.Close` | src/utils/stringToRegExp.js:7 | the greedy body ends at the last slash that completes a match from the opening slash, and none later does |
| `Needle.Open` | src/utils/stringToRegExp.js:7 | the match opens at the first slash from which any match exists and closes greedily |
| `Needle.FindBody` | src/utils/stringToRegExp.js:7 | there is a body exactly when some slash pair matches; it is non-empty and has no line terminator |
| `Needle.StringToRegExp` | src/utils/stringToRegExp.js:4-14 | short input, input not starting with `/`, or input without a body gives nothing; a result is accepted by the engine and has a non-empty single-line pattern |
| `Needle.EmptyLiteralIsNotRegExp` | src/utils/stringToRegExp.js:7-9 | `//` is not a regular expression |
| `Needle.LiteralRoundTrip` | src/utils/stringToRegExp.js:7-12 | `/body/flags` reads back as the body, with the flag when exactly one follows and none otherwise, or nothing when the engine refuses it |
| `Needle.LiteralBody` | src/utils/stringToRegExp.js:7 | the body of `/body/flags` is `body`, even when it contains slashes |
| `Needle.LiteralMatches` | src/utils/stringToRegExp.js:7 | `/body/flags` matches from its first slash to the slash before the flags |
| `Needle.LiteralClosesOnce` | src/utils/stringToRegExp.js:7 | no later slash closes a match in `/body/flags` |
| `Needle.LiteralFlag` | src/utils/stringToRegExp.js:8 | the flag of `/body/flags` is its suffix when that is one character, and none otherwise |
| `Needle.NeedleToTitle` | src/utils/needleToTitle.js:7-10 | a regular-expression needle is titled by `regExpToTitle`; any other title has no comma and no outer whitespace |
| `Needle.PlainNeedleWithoutComma` | src/utils/needleToTitle.js:9 | a plain needle without a comma is titled by its own trim |
| `Needle.PlainNeedleFirstPart` | src/utils/needleToTitle.js:9 | a plain needle is titled by the trim of its text before the first comma |
| `Shortcut.EventMatchesKey` | src/utils/eventMatchesKey.js:14-23 | a modifier needle yields its event flag (command, control, alt, shift) or `undefined` when unmapped; any other needle matches exactly when the lower-cased key equals it |
| `Shortcut.UppercaseNeedleNeverMatches` | src/utils/eventMatchesKey.js:22 | a plain needle with an upper-case letter never matches |
| `Shortcut.PlainNeedleIgnoresModifiers` | src/utils/eventMatchesKey.js:22 | for a plain needle only the key matters, not the modifier flags |
| `Shortcut.EventMatchesShortcut` | src/utils/eventMatchesShortcut.js:7 | a shortcut matches exactly when every one of its keys does |
| `Shortcut.EmptyShortcutMatches` | src/utils/eventMatchesShortcut.js:7 | the empty shortcut matches every event |
| `Shortcut.ShortcutOrderIrrelevant` | src/utils/eventMatchesShortcut.js:7 | two shortcuts with the same keys match the same events, whatever the order or repetition |
| `Shortcut.MoreKeysMatchLess` | src/utils/eventMatchesShortcut.js:7 | a longer shortcut matches only when both parts do, so adding keys never turns a miss into a match |

## Left out

- Real concurrency is not modelled. `Worker`, `Blob`, `URL.createObjectURL`, `setTimeout` and structured cloning are replaced by explicit events and flags. Time is not modelled: a timer firing is an event, and the constants give the limits.
- The plug-in script's code is not evaluated. Which route names it defines is a set, and a running route finishes through an explicit event with its completion.
- `fetch`, `JSON.parse` and `JSON.stringify` are parameters (`Fetcher`, `JsonParser`, `Serialise`, `Transport`). So are `Date.now()` and `Math.random()`. GraphQL query texts are datatypes. `console.log` is dropped. The ISO timestamp of `completed_at` is a tag.
- `keyIsModifier`, `regExpToTitle` and `getUniqueId` are parameters, because their source is not part of this model. So is whether `new RegExp` accepts a pattern (`compiles`).
- `src/utils/isURL.js` is left out because it depends on the `URL` constructor. `spring.js` (floating point), `textMeasure.js` (canvas metrics), `measurable.js` (DOM observers), `mediaQueryStore.js` (`matchMedia`) and `readFile.js` (`FileReader`) are left out too, as are the vite configurations.
- The rest of `demo.js` is not modelled: DOM layout, tray menus, SVG, clock formatting, `localStorage` and event wiring.
- The stores the `storeGroup` factory makes are not modelled. A store is named by its key and the generation that made it. Its subscribe-time call gives the value it was made with, as a store built on `writable` does. Every later value it publishes, including any caused by `store.set`, is an event.
- `sleep` in `dummy.js` is not waited for. Each outcome records only the value handed to `setTimeout`.
- The `getId` and `getName` of `test-upsert-only.js` and `wip.js` are constants, so nothing is stated about them. The bounds are stated for `dummy.js`.
- Numbers are integers: `NaN`, fractions and the `Number` to string rules beyond integers are not modelled. `toLowerCase` is modelled for ASCII letters only.
- Objects.DeepAssign: object identity is not modelled. Merged objects are values, so the model cannot tell a shared reference from a copy. The target must be a non-array object; the code also accepts arrays and functions there.
- Keys an object inherits from `Object.prototype` (`toString`, `constructor`, `__proto__` and the rest) are not modelled. A lookup finds only own fields. The members below are therefore weaker than the code for those names.
- SyncWorker.RouteOf: a command that names an `Object.prototype` member, such as `"toString"`, is `NoRoute` in the model. The code looks it up in the route table, finds the inherited function and calls it.
- SyncWorker.UnknownCommandAnsweredTwice: it holds for commands that are not `Object.prototype` member names. For `"toString"` the code answers once, with `"[object Object]"`. The host API only sends the six route names.
- SyncUpsert.MissingIdGivesFalse: it holds for ids that are not `Object.prototype` member names. For an id such as `"toString"`, `store[id]` is the inherited function, which is truthy, so the code sets `completed` on it and returns true. `upsertTodo` cannot be reached through the worker anyway.
- Objects.MergeFields: a source's own `"__proto__"` key, as `JSON.parse` can produce, becomes a target field in the model. The code reads `target.__proto__`, which is `Object.prototype`, and merges into that.
- Objects.SingleSource: its key-union clause fails in the code for a source's own `"__proto__"` key, for the reason given under Objects.MergeFields.
- StoreGroup.SetOfNewKeyNotifies: each `Call` logs a snapshot of the state, while the code passes one mutable `state` object to every subscriber. `set` deletes dropped keys from that object without calling anyone (src/utils/storeGroup.js:74), so a subscriber that kept the object sees the drop; the model shows it only in the next call. A store whose `store.set` emits synchronously (a hard spring set, or a writable holding an object) calls the subscribers inside `set` (src/utils/storeGroup.js:84), before the stores of later new keys are created; the model can only place that emission as a `StoreEmits` after the whole `set`.
- StoreGroup.SetReconciles: a group key that names an `Object.prototype` member is not modelled. For it, `stores[key]` finds the inherited function, no store is created and `stores[key].store.set` throws.
- A broker is a function of the command and its arguments, and settles when the message is delivered. So two `fetch` calls with the same arguments cannot end differently in the model, and a broker that settles later cannot be expressed.
- SyncWorker.Start always posts `'ready'` before anything else. A plug-in that calls `fetch` while it loads sends a `'message'` first in the code, and that rejects the worker's creation. The channel model cannot reach that case.
- SyncUpsert.UpsertTodo: its contract states only the throwing case. The insert, missing-id and present-id behaviour is stated by the lemmas after it. For a truthy entry that is an array, the code sets `completed` on it; the model leaves the entry unchanged, because `Value.Arr` cannot carry named properties.
- SyncWip.InsertTodo: its own contract states only the early throw. The response ladder is stated on `SyncWip.ClassifyInsert`, and the empty-key case by `SyncWip.EmptyKeySendsNothing`.
- SyncWip.UpdateTodo: its own contract states only the early throw. The response ladder is stated on `SyncWip.ClassifyChange`, and the empty-key case by `SyncWip.EmptyKeySendsNothing`.
- SyncWip.DeleteTodo: its own contract states only the early throw. The response ladder is stated on `SyncWip.ClassifyChange`, and the empty-key case by `SyncWip.EmptyKeySendsNothing`.
- DemoState.ClearCompleted: its own contract states success and length only. What survives and in which order is stated by `DemoState.ClearCompletedKeepsExactly` and `DemoState.ClearCompletedAppend`.
