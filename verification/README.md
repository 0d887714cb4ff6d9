# Verified model of the angzarr Go client

The client turns commands into events and events into further commands. This project models its in-memory engine:
the log of event pages, the replay of that log into state, and the dispatch of commands and events to registered
handlers. It proves what the engine keeps over whole runs, and where two designs of the same job agree.

`dafny verify dfyconfig.toml` checks everything.

| file | content |
|---|---|
| Proto.dfy | the protobuf messages as values; an event book behind a pointer is the class `EventBookRef` |
| Dispatch.dfy | type-URL lookup through a Go map (any iteration order) and through a slice of registrations |
| Replay.dfy | the fold of event appliers over a log |
| Keys.dfy, Rejections.dfy | rejection keys, cache keys, UUID text; decoding and routing of rejections |
| AggregateSpec.dfy, Aggregate.dfy, AggregateLaws.dfy | the OO aggregate: one call as a function, the object itself, laws over runs |
| Routers.dfy, Equivalence.dfy | the functional routers, and their agreement with the OO aggregate |
| Upcaster.dfy | event version upcasting and its effect on replay |
| Collect.dfy, EventRouter.dfy, ProcessManager.dfy, Saga.dfy, CloudEvents.dfy, Projector.dfy | the loops that process events page by page |
| QueryBuilder.dfy, Retry.dfy, SplitString.dfy, SnapshotFilter.dfy | call chains of the query builder, backoff arithmetic, the splitter, the snapshot filter |

Components that update themselves in place are classes whose methods are proved against specification functions; the
laws are lemmas about those functions. A handler or applier is any total function of what it is given (state, packed
bytes); decoding errors are among its results. A Go map is ranged over by picking unvisited keys arbitrarily. A Go
slice that is handed out and appended to later is a window on a shared backing array (Saga.dfy). Sequence numbers are
uint32 and wrap.

## Main results

- A fresh aggregate per request, over a store that appends every response, answers every command list as one long-lived
  instance does - the same error, or the same new pages under the same sequence headers - exactly when no handler lets
  `Exists` show in a state that a recording command leaves (`SimulatesExactlyWhen`). Then log, sequence numbers and state
  agree as well (`PerRequestSimulatesLongLived`). On objects (`ServeBeside`) the long-lived instance answers with all
  pages since its rebuild, which are the pages served so far. Rejection notifications are outside this comparison.
- Over any run of an aggregate its cached state is the replay of its whole log, its pages are exactly the new events in
  sequence, and its counter is just past them (`RunInvariant`, and `Valid` and `CacheAgreesWithReplay` on the object);
  `RunNumbers` writes the numbers out, mod 2^32, and `SingleDispatch` and `MultiDispatch` what one command does.
- The OO aggregate and the functional router give the same answer to every request over every book, rejections
  included, exactly when the handler returns no event that the aggregate skips (`ObjectAgreesWithRouter`).
- Upcasting a log and replaying it is replaying with upcasting built in; when upcasting is idempotent is decided exactly.
- A process manager pass is a homomorphism on trigger pages; a reused saga never lets one run's facts reach another
  run's response nor change a list it has handed out.
- Every loop that goes through pages is fixed page by page: at any position of any log, trigger or source, what one
  event contributes is stated outright as its registered handler's own output, and every other page contributes nothing
  (`ReplayOfEvent`, `EventYields`, `NotificationYields`, `EventContributes`, `EventUpcast`, `EventPublishes`).
- Cache keys and UUID text are injective; a rejection reaches exactly the handler of its domain and full command name.

## Where the code and its documentation differ

The model follows the code.

- `Exists` is documented as "has prior events" and used so in the package example. It looks at the pages after the
  rebuild has cleared them, so a request's instance always gets false (`ExistsOnFreshInstance`), and the example's
  guard lets a second registration through (`ExistsGuardBreaksSimulation`). What handlers may do with it without
  breaking the simulation is decided by `SimulatesExactlyWhen`.
- The simple-name lookup of CloudEvents is described as a fall-back but also runs after an exact hit.
  `FallBackIff` says exactly when no event is published twice. A type without a package is its own simple name, so
  what its handler publishes is published twice (`UnpackagedTypePublishedTwice`).
- `HandlesRejection` and `OnRejected` show a short command name. Dispatch compares the whole type name, so a packaged
  command never reaches such a handler (`RegisteredByFullName`).
- `Execute` promises the last error; with no attempts allowed it returns nil without calling the operation.
- Upcasting is a single pass: chained versions need one pass per step (`ChainNeedsTwoPasses`).

## Model

| member | source | states |
|---|---|---|
| `Dispatch.RangeMap` | aggregate_oo.go:397-398 | whatever the map's iteration order, the search finds the handler of the type URL's full name, or nothing |
| `Dispatch.ScanSlice` | router.go:496-501 | the scan finds the first registration of the type |
| `Dispatch.RegisteredIsLast` | aggregate_oo.go:206-206 | after any registration history the map holds the last registration of each name |
| `Dispatch.MapAndSliceDispatch` | router.go:165-175 | map dispatch picks the last, slice dispatch the first registration; they agree on every type registered once |
| `Dispatch.DistinctTablesAgree` | router.go:496-501 | with distinct names both styles dispatch every type URL alike |
| `Dispatch.FindsEntry` | aggregate_oo.go:397-398 | a type URL finds the map entry of its full name, and nothing if there is none |
| `Dispatch.FindsFirst` | router.go:496-501 | if a name is first registered at position i, its type URL finds the handler at i |
| `Dispatch.LastIsAt` | aggregate_oo.go:206-206 | if a name is last registered at position i, that handler is the one the map keeps |
| `Dispatch.FindsNothing` | aggregate_oo.go:470-470 | a page without an event of a registered type finds no handler |
| `Replay.FoldConcat` | router.go:470-478 | replaying a log in two parts is replaying it whole |
| `Replay.FoldSameTable` | aggregate_oo.go:462-471 | replay depends only on what type URLs are dispatched to |
| `Replay.ReplayOfEvent` | aggregate_oo.go:462-471 | at any position of any log, an event of a registered type turns the state that precedes it into what its applier makes of that state and the event's bytes |
| `Replay.ReplayOfEventByFirst` | router.go:494-503 | the same for a slice of registrations, with the first one of the type |
| `Replay.ReplayOfOther` | aggregate_oo.go:502-506 | a page without an event, or with one of an unregistered type, can be left out of a replay; the empty log leaves the initial state |
| `Replay.EventApplied` | aggregate_oo.go:462-471 | one event on its own: the applier of its type is given its bytes, otherwise nothing changes |
| `Replay.EventAppliedByFirst` | router.go:494-503 | the same for the first registration of the type |
| `Keys.TypeNameRoundTrip` | helpers.go:280-285 | the type name cut from a type URL built from a full name is that name |
| `Keys.SuffixHasNoSlash` | pm_oo.go:452-471 | an extracted command suffix never contains a slash |
| `Keys.ExtractionsAgree` | aggregate_oo.go:575-589 | the inline extraction and the process manager's differ exactly on a page-less rejected book whose cover names a domain |
| `Keys.RejectionOfCommand` | router.go:199-213 | a rejected book yields its cover's domain and the full type name of its first command |
| `Keys.RejectionWithPage` | pm_oo.go:452-471 | a missing cover or command counts as empty, and a command type without a slash is its own name |
| `Keys.RejectionWithoutPage` | pm_oo.go:452-471 | what both extractions give without a rejected command or without pages |
| `Keys.RejectionReaches` | aggregate_oo.go:591-593 | a registered pair shares a rejection's key exactly when it is that rejection's pair, or its command has a slash that the domain absorbs |
| `Keys.RegisteredByFullName` | aggregate_oo.go:306-309 | a handler is reached by a command exactly when domain and whole type name match; a short name misses a packaged command |
| `Keys.RejectionRouting` | router.go:120-124 | for every registration history, lookup by joined key finds the last handler of exactly the rejection's domain and suffix |
| `Keys.HexRoundTrip` | helpers.go:134-134 | hex decodes back to the bytes |
| `Keys.HexAt` | helpers.go:134-134 | two lower-case digits a byte, the higher half first |
| `Keys.CacheKeyInjective` | helpers.go:105-107 | cache keys are equal exactly when domains and root bytes are, also if domains contain the separator |
| `Keys.CacheKeyParts` | helpers.go:105-107 | a cache key reads back: its last separator ends the domain, the rest decodes to the root bytes |
| `Keys.CacheKeyIs` | helpers.go:105-107 | domain, colon, hex of the root; a missing or empty domain reads "unknown" |
| `Keys.RootIDHexIsHex` | helpers.go:82-88 | a missing root encodes like empty root bytes |
| `Keys.UUIDTextRoundTrip` | helpers.go:127-135 | dropping hyphens and decoding hex recovers the bytes, for every byte string |
| `Keys.UUIDTextInjective` | helpers.go:127-135 | equal texts come only from equal bytes, across the two formats |
| `Keys.UUIDTextShape` | helpers.go:127-135 | 16 bytes give groups of 8-4-4-4-12 hex digits, anything else plain hex |
| `AggregateSpec.RecordConcat` | aggregate_oo.go:438-459 | recording two batches one after the other is recording both at once: state, counter and pages |
| `AggregateSpec.RecordNext` | aggregate_oo.go:425-429 | one turn of the multi-event loop records the next event that is not skipped |
| `AggregateSpec.PresentAround` | aggregate_oo.go:425-429 | at any position of a handler's list, a present event is kept in its place and a skipped one leaves nothing |
| `AggregateSpec.RecordCounted` | aggregate_oo.go:449-458 | recording keeps page i numbered bookSeq + i mod 2^32, with event i, and the counter at bookSeq plus the number of events mod 2^32 |
| `AggregateSpec.RecordReplayed` | aggregate_oo.go:444-447 | recording keeps the cached state equal to the replay of prior and new pages |
| `AggregateSpec.RebuiltInStep` | aggregate_oo.go:489-510 | the rebuild establishes both |
| `AggregateSpec.LateApplierKeepsReplay` | aggregate_oo.go:362-362 | an applier registered after the rebuild keeps the agreement if no page has its type |
| `AggregateSpec.LateApplierBreaksReplay` | aggregate_oo.go:362-362 | over a log with an event of its type it can break it |
| `Aggregate.CommandHandlerBase.constructor` | aggregate_oo.go:116-126 | a new instance is untouched and shares the caller's book; a nil book becomes an empty one |
| `Aggregate.CommandHandlerBase.Registered` | aggregate_oo.go:22-30 | the same for an instance with its registrations made |
| `Aggregate.CommandHandlerBase.SetDomain` | aggregate_oo.go:129-131 | sets the domain; the invariant stays |
| `Aggregate.CommandHandlerBase.Handles` | aggregate_oo.go:154-207 | overwrites the name's single-event handler; the invariant stays |
| `Aggregate.CommandHandlerBase.HandlesMulti` | aggregate_oo.go:225-283 | overwrites the name's multi-event handler; the invariant stays |
| `Aggregate.CommandHandlerBase.Applies` | aggregate_oo.go:325-363 | overwrites the event's applier; the cache agreement stays before the rebuild, and after it if no page has the type |
| `Aggregate.CommandHandlerBase.HandlesRejection` | aggregate_oo.go:306-309 | overwrites the handler of the joined key |
| `Aggregate.CommandHandlerBase.ApplyToState` | aggregate_oo.go:462-471 | the applier of the event's type is given the cached state and the event's bytes; unknown types leave the state alone |
| `Aggregate.CommandHandlerBase.Rebuild` | aggregate_oo.go:489-510 | state is the replay of the pages, the counter is the book's next sequence, and the shared book's pages are cleared |
| `Aggregate.CommandHandlerBase.State` | aggregate_oo.go:366-371 | rebuilds once and only once, and returns the state |
| `Aggregate.CommandHandlerBase.Exists` | aggregate_oo.go:374-378 | true exactly when an event has been recorded since the rebuild |
| `Aggregate.CommandHandlerBase.ApplyAndRecord` | aggregate_oo.go:438-459 | one page with the event is appended under the counter's number, the counter moves on by one mod 2^32, and cache and replay still agree |
| `Aggregate.CommandHandlerBase.RecordAll` | aggregate_oo.go:425-429 | the events of a batch that are not skipped are recorded in order |
| `Aggregate.CommandHandlerBase.Dispatch` | aggregate_oo.go:389-435 | the new state and the error are those of the step function; the invariant and the cache agreement stay on every path |
| `Aggregate.CommandHandlerBase.DispatchRejection` | aggregate_oo.go:560-602 | decoding errors, the registered handler's answer on rebuilt state, or delegation; the instance is rebuilt only if a handler ran |
| `Aggregate.CommandHandlerBase.Handle` | aggregate_oo.go:532-554 | missing command, rejection and command cases; a success answers with the shared book holding only new pages |
| `Aggregate.DispatchRequest` | handler.go:626-643 | one new instance per request; a rejected command gives FailedPrecondition with its message, any other error InvalidArgument; the request's own book is updated in place and is the response |
| `Aggregate.RejectionCompensated` | aggregate_oo.go:567-601 | a notification whose rejection decodes, or that has no payload, is answered by the handler of its domain and command, else by a revocation that names the aggregate's domain and the key |
| `Aggregate.RejectionRefused` | aggregate_oo.go:561-573 | any other notification is refused, with an error that says which of the two messages did not decode |
| `AggregateLaws.RunInvariant` | aggregate_oo.go:366-510 | over every sequence of calls the instance is untouched until a call needs its state, then state, pages and counter stay in step with the recorded events |
| `AggregateLaws.RunNumbers` | aggregate_oo.go:438-510 | after any sequence of calls that builds the state: page i is recorded event i under bookSeq + i mod 2^32, the counter is bookSeq plus their number mod 2^32, and the state is the fold over log and pages |
| `AggregateLaws.SingleDispatch` | aggregate_oo.go:396-412 | a single-event handler is given the state of the whole log and whether pages were recorded; its error or nil leaves the built instance, its event becomes one page, is applied, and moves the counter by one |
| `AggregateLaws.MultiDispatch` | aggregate_oo.go:414-432 | if only a multi-event handler is registered, exactly its present events become pages, in order and numbered on |
| `AggregateLaws.UnroutedDispatch` | aggregate_oo.go:389-435 | without a command or a handler the instance is untouched, and the error says which |
| `AggregateLaws.HandleDispatches` | aggregate_oo.go:532-554 | the first command alone is dispatched; a success answers with the book and the pages that dispatch left |
| `AggregateLaws.HandleWithoutCommand` | aggregate_oo.go:533-540 | a request without a command is an error and changes nothing |
| `AggregateLaws.FailureRecordsNothing` | aggregate_oo.go:389-435 | a failing command records nothing; a built instance is unchanged; a fresh one loses its prior pages to a handler error but not to an unknown command |
| `AggregateLaws.RequestServes` | handler.go:626-643 | the request path answers with the same pages or error as the serving step used in the simulation |
| `AggregateLaws.RecordAtSamePoint` | aggregate_oo.go:438-459 | recording the same events on both sides adds the same pages |
| `AggregateLaws.ServeStep` | handler.go:626-643 | one command keeps the store and the long-lived instance at the same point of the log, with the same outcome |
| `AggregateLaws.PerRequestSimulatesLongLived` | handler.go:626-643 | for every command list, per-request instances and one long-lived instance give the same answers, log, sequence headers and state, under the condition of the next row |
| `AggregateLaws.SimulatesExactlyWhen` | handler.go:626-643 | they answer every command list over every store alike exactly when no visible answer depends on `Exists` in a state that a recording command leaves |
| `AggregateLaws.SecondAnswerShows` | aggregate_oo.go:389-435 | after a recording command, the next one is answered alike on both sides exactly when `Exists` does not show in its answer |
| `AggregateLaws.IgnoringExistsSuffices` | aggregate_oo.go:374-378 | in particular when no handler depends on `Exists` |
| `AggregateLaws.RequestStep` | handler.go:626-643 | one request that is not a notification, with or without a command: the same error, or the new instance's pages are what the long-lived instance's answer gains |
| `AggregateLaws.ServeOne` | handler.go:626-643 | the same on objects: the store grows by the reply's pages, and the long-lived answer holds all pages since the start |
| `AggregateLaws.ServeBeside` | handler.go:626-643 | the simulation on objects for every list of requests other than notifications: each long-lived answer is the reply's error or holds exactly the pages of all replies so far; final log, sequence and state agree |
| `AggregateLaws.ExistsOnFreshInstance` | aggregate_oo.go:373-378 | on a request's instance the call reports prior events rightly exactly when there are none |
| `AggregateLaws.RegisterAlwaysServed` | aggregate_oo.go:37-45 | the example's guard never fires for a request, whatever the store holds |
| `AggregateLaws.ExistsGuardBreaksSimulation` | aggregate_oo.go:37-45 | the example lets `Exists` show: for every store the two sides answer a second registration differently |
| `Routers.StateRouter.constructor` | router.go:442-447 | an empty router over the state factory |
| `Routers.StateRouter.On` | router.go:457-465 | appends the registration |
| `Routers.StateRouter.ApplySingle` | router.go:494-503 | the first applier of the type is given the state and the event's bytes; unknown types are ignored |
| `Routers.StateRouter.WithEvents` | router.go:470-478 | the fold over the event-bearing pages from a new state |
| `Routers.StateRouter.WithEventBook` | router.go:481-486 | only the pages of the book count; a nil book gives the initial state |
| `Routers.StateRouter.ToRebuilder` | router.go:511-515 | the rebuilder rebuilds as the router does |
| `Routers.CallRebuilder` | router.go:141-141 | calling a rebuilder gives the state for the book, by the router's registrations at the time of the call |
| `Routers.RegisterLate` | router.go:511-515 | a registration made after the rebuilder was handed out takes part in its later rebuilds |
| `Routers.CommandRouter.constructor` | router.go:78-85 | an empty router for the domain |
| `Routers.CommandRouter.On` | router.go:91-94 | appends the registration |
| `Routers.CommandRouter.OnRejected` | router.go:120-124 | overwrites the handler of the joined key |
| `Routers.CommandRouter.Dispatch` | router.go:131-178 | missing command, rejection, first matching handler on rebuilt state and next sequence, or unknown command |
| `Routers.CommandRouter.DispatchRejection` | router.go:190-224 | decoding error, registered handler, or delegation |
| `Routers.RouterDispatches` | router.go:165-175 | the first handler of the command's type is given the book, the command, the state and the prior book's next sequence, and its book or error is the answer |
| `Routers.RouterRefuses` | router.go:177-177 | a command of an unregistered type is unknown |
| `Routers.RouterWithoutCommand` | router.go:132-151 | a request without a command is an error |
| `Routers.RouterCompensates` | router.go:190-224 | a notification goes to the handler of its rejection's domain and command, else to the framework with the router's domain and the key |
| `Routers.RouterRefusesNotification` | router.go:156-197 | a notification that does not decode is an error, by message |
| `Routers.NewEventBookMulti` | helpers.go:235-249 | page i is dated, has event i, nil ones included, and the number startSeq + i mod 2^32; the cover is kept, and there is no snapshot |
| `Equivalence.SameState` | router.go:470-486 | both designs rebuild the same state and next sequence from every book, nil included |
| `Equivalence.SameHandler` | aggregate_oo.go:397-432 | both designs pick the same implementation for every command type |
| `Equivalence.SameRejectionAnswer` | router.go:190-224 | both designs answer every rejection alike |
| `Equivalence.SamePagesUnlessSkipped` | helpers.go:238-244 | recorded pages and built pages agree exactly when no event is skipped |
| `Equivalence.ObjectAgreesWithRouter` | router.go:131-178 | for every design, request and prior book the two give the same answer exactly when the handler returns no event that the aggregate skips: nil from a single-event handler, or one that cannot be packed |
| `Upcaster.UpcasterRouter.On` | upcaster.go:47-50 | appends the registration |
| `Upcaster.UpcasterRouter.Upcast` | upcaster.go:56-85 | page-wise transformation by the first match; transformed pages are new objects, others are shared, no input page is written |
| `Upcaster.UpcastThenReplay` | upcaster.go:56-85 | replaying the upcast log is replaying the stored one with first matching upcaster, then apply; nil results included |
| `Upcaster.UpcastKeepsEnvelope` | upcaster.go:70-73 | length, order, headers and dates are kept; only event payloads change |
| `Upcaster.UpcastConcat` | upcaster.go:56-85 | a log can be upcast in parts |
| `Upcaster.UpcastIdempotent` | upcaster.go:66-77 | upcasting twice is upcasting once, on every log, exactly when each upcaster's output is nil or left alone by a second pass |
| `Upcaster.CurrentTypesUnregistered` | upcaster.go:66-77 | in particular when no upcaster outputs a registered type |
| `Upcaster.ChainNeedsTwoPasses` | upcaster.go:66-77 | a chained version stops after one step |
| `Upcaster.EventUpcast` | upcaster.go:66-77 | at any position of a log, an event with an upcaster becomes what its type's first upcaster makes of it, under the same header and date |
| `Upcaster.OtherPageKept` | upcaster.go:59-82 | any other page stays as it is, in its place |
| `Collect.CollectedConcat` | router.go:372-389 | an event loop over two page lists is the two loops one after the other |
| `Collect.CollectedOk` | router.go:389-389 | the loop succeeds exactly when no page fails |
| `Collect.CollectedError` | router.go:380-383 | the loop's error is the first one in page order, and all output is discarded |
| `Collect.CollectedAround` | router.go:372-389 | one page's output stands between that of the pages before and after; the first of the three errors wins |
| `EventRouting.EventRouter.constructor` | router.go:281-291 | an optional first domain is set |
| `EventRouting.EventRouter.Domain` | router.go:294-300 | changes the current domain and no registration |
| `EventRouting.EventRouter.On` | router.go:307-316 | registers under the current domain only |
| `EventRouting.EventRouter.Subscriptions` | router.go:339-351 | exactly the domains with registrations, each with its names in order, whatever the iteration order |
| `EventRouting.EventRouter.Dispatch` | router.go:355-390 | for every interleaving of registrations, what the registrations under the source's own domain yield over its pages; the next rows say what that is, page by page |
| `EventRouting.EventYields` | router.go:378-386 | at any position, an event of a registered type yields exactly what the type's first handler under the domain returns for it, between the output of the other pages, or the handler's error |
| `EventRouting.OtherPageYieldsNothing` | router.go:372-379 | any other page can be left out; no pages yield no commands |
| `EventRouting.UnderAppended` | router.go:294-316 | a registration joins the list of the current domain, at its end, and no other list |
| `EventRouting.InvokedIffSubscribed` | router.go:378-379 | a page reaches a handler exactly when its domain and type are subscribed |
| `EventRouting.OtherDomainsIrrelevant` | router.go:311-314 | a registration under another domain changes nothing |
| `ProcessManagers.ProcessManagerBase.constructor` | pm_oo.go:85-92 | no registrations and no state factory |
| `ProcessManagers.ProcessManagerBase.WithStateFactory` | pm_oo.go:96-98 | sets the factory |
| `ProcessManagers.ProcessManagerBase.Handles` | pm_oo.go:139-212 | overwrites the event's handler |
| `ProcessManagers.ProcessManagerBase.Applies` | pm_oo.go:229-272 | overwrites the event's applier |
| `ProcessManagers.ProcessManagerBase.OnRejected` | pm_oo.go:295-324 | overwrites the handler of the joined key |
| `ProcessManagers.ProcessManagerBase.RebuildState` | pm_oo.go:327-357 | the fold of the appliers over the process book only |
| `ProcessManagers.ProcessManagerBase.HandleNotification` | pm_oo.go:423-449 | the registered handler's response; decoding errors and missing handlers are silent |
| `ProcessManagers.ProcessManagerBase.Handle` | pm_oo.go:364-420 | the pass over the trigger's pages, against the state rebuilt before it, or the first error alone; the rows from EventYields on say what each page adds |
| `ProcessManagers.PassSplits` | pm_oo.go:364-420 | handling p then q is handling both: commands and process pages concatenated, last notification wins, first error discards all |
| `ProcessManagers.BookIffEvents` | pm_oo.go:412-417 | there is a process book exactly when a page produced process events |
| `ProcessManagers.EventYields` | pm_oo.go:397-409 | at any position of a trigger, an event of a registered type adds exactly its handler's commands and process pages, in its place, or the handler's error discards everything |
| `ProcessManagers.NotificationYields` | pm_oo.go:383-395 | a notification adds no commands and exactly the process pages and the notification of the handler registered for its rejection's domain and command |
| `ProcessManagers.UndecodableYieldsNothing` | pm_oo.go:425-436 | a notification that does not decode adds nothing |
| `ProcessManagers.OtherPageYieldsNothing` | pm_oo.go:375-410 | any other page adds nothing; a trigger without pages yields nothing |
| `Sagas.SagaBase.constructor` | saga_oo.go:62-67 | no handlers and no facts |
| `Sagas.SagaBase.Handles` | saga_oo.go:106-174 | overwrites the event's handler |
| `Sagas.SagaBase.EmitFact` | saga_oo.go:249-251 | appends one fact, in place or into a grown array; no list handed out before changes |
| `Sagas.SagaBase.ClearEvents` | saga_oo.go:254-256 | drops the facts and their backing array |
| `Sagas.SagaBase.HandlePage` | saga_oo.go:269-286 | one page's commands and facts, or its error |
| `Sagas.SagaBase.Handle` | saga_oo.go:260-291 | commands and facts are a function of handlers and source alone, whatever earlier runs left behind |
| `Sagas.RunIsolation` | saga_oo.go:249-291 | after any sequence of calls every response still shows exactly its own source's commands and facts |
| `Sagas.EventContributes` | saga_oo.go:269-286 | at any position of a source, an event of a registered type contributes exactly the commands its handler returns and the facts it emits, in its place, or the handler's error discards everything |
| `Sagas.OtherPageContributesNothing` | saga_oo.go:269-286 | any other page can be left out; no pages contribute nothing |
| `CloudEvents.CloudEventsRouter.On` | cloudevents.go:102-151 | overwrites the full name's handler |
| `CloudEvents.CloudEventsRouter.OnSuffix` | cloudevents.go:164-172 | overwrites the simple name's handler in the same table; it sees the bytes without a type |
| `CloudEvents.CloudEventsRouter.ProjectEvent` | cloudevents.go:188-214 | the exact hit's event, then the simple name's |
| `CloudEvents.CloudEventsRouter.Project` | cloudevents.go:175-218 | the in-order concatenation over the pages |
| `CloudEvents.ProjectedConcat` | cloudevents.go:175-218 | a book can be projected in parts |
| `CloudEvents.SimpleNameIs` | cloudevents.go:200-208 | the simple name is all that follows the last slash or dot |
| `CloudEvents.EventPublishes` | cloudevents.go:188-214 | at any position of a book, an event publishes first what its full name's handler makes of its bytes, then what its simple name's handler does |
| `CloudEvents.ForeignEventPublishes` | cloudevents.go:200-214 | an event under another URL prefix is hit by its simple name only |
| `CloudEvents.PageWithoutEvent` | cloudevents.go:183-186 | a page without an event publishes nothing |
| `CloudEvents.TwiceIffOverlap` | cloudevents.go:190-214 | an event is published twice exactly when both lookups hit handlers that publish it, and never more often |
| `CloudEvents.FallBackIff` | cloudevents.go:190-214 | no event is published twice exactly when no registered name overlaps with the registered simple name it ends in |
| `CloudEvents.UnpackagedTypePublishedTwice` | cloudevents.go:200-214 | the handler of a type without a package publishes each event twice |
| `CloudEvents.PackagedFallBackIff` | cloudevents.go:190-214 | on events of packaged types, in tables that mix full and simple names, none is published twice exactly when no dotted name overlaps |
| `CloudEvents.PackagedNamesNeverOverlap` | cloudevents.go:190-214 | if no registered dotted name ends in a registered name, events of packaged types are published at most once, and all events are if only dotted names are registered |
| `Projectors.ProjectorBase.constructor` | projector_oo.go:56-60 | no handlers |
| `Projectors.ProjectorBase.Projects` | projector_oo.go:87-135 | overwrites the event's handler |
| `Projectors.ProjectorBase.Handle` | projector_oo.go:138-175 | the first projection that a page yields, and no page is consulted after it; otherwise the default projection |
| `Projectors.LastSequenceIs` | projector_oo.go:151-154 | the default carries the sequence of the last event-bearing page with a header |
| `Projectors.NoSequence` | projector_oo.go:143-154 | and 0 if there is none |
| `Projectors.SequenceFollows` | projector_oo.go:145-154 | an event-bearing page under a header sets the default's sequence, to 0 if the header has no number; any other page keeps it |
| `Projectors.EventProjected` | projector_oo.go:158-166 | an event of a registered type yields what its handler makes of its bytes |
| `Projectors.OtherPageNotProjected` | projector_oo.go:145-167 | any other page yields nothing |
| `QueryBuilding.QueryBuilder.constructor` | builder.go:134-148 | a new builder with or without a root |
| `QueryBuilding.QueryBuilder.ByCorrelationID` | builder.go:151-155 | sets the correlation and drops the root for good |
| `QueryBuilding.QueryBuilder.WithEdition` | builder.go:158-161 | sets the edition |
| `QueryBuilding.QueryBuilder.Range` | builder.go:164-167 | sets an open range |
| `QueryBuilding.QueryBuilder.RangeTo` | builder.go:170-173 | sets a closed range |
| `QueryBuilding.QueryBuilder.AsOfSequence` | builder.go:176-181 | sets the point in time |
| `QueryBuilding.QueryBuilder.AsOfTime` | builder.go:184-194 | sets the point in time, or the error and nothing else |
| `QueryBuilding.QueryBuilder.Build` | builder.go:197-220 | after every chain of calls, the query given by the last call of each kind, or the last parse error |
| `QueryBuilding.SettingsAreLatest` | builder.go:150-194 | after every chain of calls each field holds what the last call of its kind set |
| `QueryBuilding.SwapDifferentKinds` | builder.go:150-220 | swapping adjacent calls of different kinds never changes the result |
| `QueryBuilding.ChainDecides` | builder.go:197-220 | one unparsable time fails every later build; range beats time in any order; one correlation call leaves the root out |
| `QueryBuilding.LastCoverCall` | builder.go:150-211 | wherever they stand, the last correlation ID and the last edition are in the built query's cover |
| `QueryBuilding.LastSelectionCall` | builder.go:163-218 | the last range call gives the bounds; without one, the last temporal call gives the point in time |
| `QueryBuilding.LastFailureNamed` | builder.go:184-200 | the error is that of the last time that did not parse |
| `Retry.Execute` | retry.go:35-50 | stops at the first success, else returns the last error after all attempts; sleeps once fewer than it calls; no attempts means no call and nil |
| `Retry.DelayIs` | retry.go:52-61 | delay k is Min * 2^k, capped at Max, times a factor between a half and one if there is jitter |
| `Retry.DelaysGrow` | retry.go:52-61 | without jitter delays never decrease nor exceed the maximum |
| `Retry.TotalBackoff` | retry.go:52-61 | the exact total of n delays: Min * (2^m - 1) + (n - m) * Max |
| `Retry.JitterBounds` | retry.go:57-59 | with jitter the total lies between half of that and that |
| `SplitString.Split` | features/state_building.go:677-689 | the pieces join back to the input, every cut is at the first separator of what is left, and the loop ends |
| `SplitString.PiecesAvoidSeparator` | features/state_building.go:677-689 | no piece contains the separator |
| `SplitString.SplitUnique` | features/state_building.go:677-689 | there is only one such list of pieces |
| `SnapshotFilter.EventsApplied` | features/state_building.go:342-353 | the pages that the int32 comparison lets through |
| `SnapshotFilter.PageApplied` | features/state_building.go:349-353 | at any position of a book, a page is applied exactly when its sequence, read as int32, is past the start |
| `SnapshotFilter.StartIs` | features/state_building.go:342-346 | the start is the snapshot's sequence read as int32, or -1 |
| `SnapshotFilter.PageDecidedRightly` | features/state_building.go:350-352 | the int32 comparison is right exactly when page and snapshot are on the same side of 2^31 |
| `SnapshotFilter.AppliedArePast` | features/state_building.go:342-353 | the applied pages are those past the snapshot exactly when every page is on the snapshot's side of 2^31 |

## Left out

- gRPC clients, servers, registration and run functions, endpoints and environment variables: input and output.
- Reflection and protobuf encoding: registrations take the full type name and a typed function; cloning a page is copying its value.
- The interface-based routers at the end of router.go: single-event branching that delegates to user code.
- Snapshots in replay: no library code applies them; only the step definitions' filter is modelled, without the state it builds.
- The other step definitions in features/, the code generator, wrappers, validation, error constructors, compensation contexts and destination accessors.
- CommandBuilder: the same shape as the query builder with fewer interactions; its random correlation ID is outside the model.
- Handlers that mutate state directly or call the recorder themselves: a handler sees state and `Exists` and returns a result.
- PerRequestSimulatesLongLived: requires that `Exists` never shows, which `SimulatesExactlyWhen` proves to be exactly what is needed. The appending store stands for the framework, which is not part of this repository.
- ServeBeside: leaves out rejection notifications (as do ServeOne and RequestStep): what a rejection handler answers is stored by the framework but never recorded by the instance that answered, so a long-lived instance would fall behind its log.
- ObjectAgreesWithRouter: compares headers and payloads of pages; cover, creation time and next sequence of the two books differ by design. Appliers and commands need distinct names, since the map keeps the last registration and the slice the first. A nil entry in a multi-event handler's list panics in the source (aggregate_oo.go:267-270) and is not modelled.
- PassSplits: requires handlers that do not read the trigger's pages, which would see different pages in the two parts.
- Execute: durations are reals, so truncation to nanoseconds and float rounding are not modelled; sleeping is the list of delays.
- TotalBackoff: assumes a minimum delay that is not negative.
- EventRouter.On: requires a current domain, because the source panics without one.
- Split: requires a non-empty separator, because the source's loop does not end with an empty one.
- Timestamps are integers given from outside; random numbers are given as well.
