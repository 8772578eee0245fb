# Traceroute command and trace stores, modelled in Dafny

This project models the core of a desktop traceroute application. Its Rust
backend has a `trace` command. The command resolves the destination the
user typed, builds a tracer, forwards each hop message of the tracer as a
`hop` event and ends with one terminal event. A `cancel_trace` command sets
a shared cancel flag that the forwarding loop reads. On the front end, two
stores keep the traces and their hops.

- `trace.dfy` (module `TraceCommand`): one run of `trace` as a pure function
  `TraceRun` of everything the run takes from outside (a `World`). The
  inputs are the literal-address parse, the DNS lookup, whether the tracer
  can be built, the hop messages received, the stores other threads make to
  the cancel flag, and how the prober thread ends. The output is the ordered
  list of emitted events and the tracer settings.
- `app_state.dfy` (module `AppCommands`): the managed `AppState` as a class
  with a boolean `cancelFlag`. `Trace` resets the flag, resolves, builds the
  tracer and runs the drain loop as a `while` loop. `CancelTrace` sets the
  flag. `Trace` is proved to emit exactly the events of `TraceRun`.
- `trace_types.dfy` (module `TraceTypes`): the front-end record shapes of
  `src/lib/types.ts`.
- `trace_store.dfy` (module `TraceStore`): the writable store of
  `src/lib/Store.ts`. It is a class whose methods reassign a `seq` of trace
  values, plus the pure `getCurrentTrace`.
- `rune_store.dfy` (module `RuneStore`): the older rune store of
  `src/lib/Store.svelte.ts`. Trace records are objects here, and `AddHop`
  pushes onto the found record's hops in place.

Concurrency is replaced by a schedule. The drain loop reads the flag once
per message, and once more after the loop ends. `World.writes[k]` is what
other threads store into the flag just before read `k`. `Store(true)` is a
`cancel_trace` call and `Store(false)` is the reset done by an overlapping
`trace` call. Any sequence of readings can arise this way, so this is no
less general than taking the readings themselves as input.
`ReadingIsLatestStore` says what a reading is: the flag reads as set
exactly when the latest store before the read was a cancel request.

Behaviour of the code worth noting:
- The cancel flag is read *before* a message is forwarded. The message on
  which the set flag is seen is dropped.
- When the prober thread panics, the run emits no terminal event.
- A resolution failure is one `trace_fail` event with a fixed text. When a
  looked-up address is unspecified, the `trace_fail` event comes after a
  `trace_dns` event for that address.
- The `host_name` field of a `hop` event carries the sequence number.

## Model

| member | source | states |
|---|---|---|
| `TraceCommand.TraceRun` | src-tauri/src/lib.rs:17-139 | No contract: the definition of one `trace` command (resolution, tracer set-up, drain, final event). Its properties are `LiteralInput`, `DnsInput`, `ResolutionFailures`, `UnspecifiedRejected`, `TracerSetup`, `HopsInReceiveOrder`, `FinalEventIsLast`, `CancelObserved`, `CompletesWithoutCancel` and `NoCancelWithoutRequest`. |
| `TraceCommand.ParseOrLookup` | src-tauri/src/lib.rs:22-45 | No contract: the definition of the literal-or-DNS step. Its properties are stated through `Resolve` and the lemmas `LiteralInput`, `DnsInput` and `ResolutionFailures`. |
| `TraceCommand.IsUnspecified` | src-tauri/src/lib.rs:47 | No contract: the definition of the all-zero address test. Its property is `UnspecifiedRejected`. |
| `TraceCommand.Resolve` | src-tauri/src/lib.rs:22-51 | The destination, when there is one, is never the unspecified address. It is the literal when the input parses, and otherwise the first looked-up address. A literal that is not unspecified resolves to itself with no event. A looked-up first address that is not unspecified resolves to that address after one `trace_dns` event for it. A successful resolution emits only `trace_dns` events; a failed one ends with `trace_fail`. |
| `TraceCommand.Configure` | src-tauri/src/lib.rs:64-67 | No contract: the definition of the tracer settings (hop limit from the caller, 2 s send rate, 15 s receive timeout, 60 s trace timeout). Its property is `TracerSetup`. |
| `TraceCommand.ToPayload` | src-tauri/src/lib.rs:89-97 | No contract: the definition of the `hop` payload built from one progress message. Its properties are `HopEvents` and `HopsInReceiveOrder`. |
| `TraceCommand.HopEvents` | src-tauri/src/lib.rs:84-101 | There is one `hop` event per message, in receive order, each built from its own message, and its `host_name` is the message's sequence number. |
| `TraceCommand.CutOff` | src-tauri/src/lib.rs:78-82 | The drain loop stops at the first message whose flag read finds the flag set, or after the last message; every earlier read found the flag clear. |
| `TraceCommand.Reading` | src-tauri/src/lib.rs:20-104 | No contract: the definition of the value a flag read sees, starting from the reset at line 20 and applying the stores that land before it (the loads at lines 79 and 104). Its properties are `ReadingIsLatestStore`, `CancelIsSticky` and `QuietFlagStaysClear`. |
| `TraceCommand.Terminal` | src-tauri/src/lib.rs:104-135 | No contract: the definition of the final event chosen by the last flag read and the join outcome. Its properties are `CancelledRunSkipsJoin`, `FinalEventIsLast` and `CompletesWithoutCancel`. |
| `TraceCommand.DrainFrom` | src-tauri/src/lib.rs:78-102 | No contract: the definition of the drain loop from a given message on. Its property is `DrainFromShape`. |
| `TraceCommand.Drain` | src-tauri/src/lib.rs:78-135 | No contract: the definition of the whole drain thread. Its property is `DrainShape`, and `AppCommands.AppState.Trace` is proved against it. |
| `TraceCommand.DrainFromShape` | src-tauri/src/lib.rs:78-135 | From any message on, the loop forwards the messages up to the cut-off and then emits the terminal event chosen by one more flag read (and, when the flag is clear, by the join). |
| `TraceCommand.DrainShape` | src-tauri/src/lib.rs:78-135 | The whole drain emits the hop events of the messages before the cut-off, in receive order, followed by at most one terminal event. |
| `TraceCommand.ReadingIsLatestStore` | src-tauri/src/lib.rs:141-145 | A flag read finds the flag set if and only if the latest store before it was a cancel request. |
| `TraceCommand.CancelIsSticky` | src-tauri/src/lib.rs:141-145 | When no overlapping run resets the flag, a flag that one read found set is set for every later read. |
| `TraceCommand.CancelledRunSkipsJoin` | src-tauri/src/lib.rs:104-135 | When the terminal read finds the flag set, the run ends with `trace_cancelled`, and the events do not depend on the join outcome (the thread is not joined). |
| `TraceCommand.ResetAfterBreakLosesCancel` | src-tauri/src/lib.rs:78-118 | An overlapping run's reset that falls between the break and the terminal read turns a cancelled run into a completed one. The hop is dropped and `trace_complete` is emitted. |
| `TraceCommand.LiteralInput` | src-tauri/src/lib.rs:22-23 | A literal input emits no `trace_dns` event. A specified literal becomes the tracer's destination unchanged. |
| `TraceCommand.DnsInput` | src-tauri/src/lib.rs:26-31 | A looked-up input emits `trace_dns` with the first address as the very first event, and no other `trace_dns`. Any tracer built targets that address, and when that address is not unspecified and the tracer builds, a tracer for it is configured with the caller's hop limit. |
| `TraceCommand.ResolutionFailures` | src-tauri/src/lib.rs:32-42 | A failed lookup emits only `trace_fail` "Invalid IP address or domain". An empty lookup emits only `trace_fail` "No address found for domain". In both cases no tracer is built. |
| `TraceCommand.UnspecifiedRejected` | src-tauri/src/lib.rs:47-51 | An unspecified literal emits only `trace_fail` "Invalid or unspecified IP address". An unspecified first DNS address emits `trace_dns` and then that failure. No tracer is built. |
| `TraceCommand.TracerSetup` | src-tauri/src/lib.rs:54-67 | A tracer that cannot be built adds only `trace_fail` "Failed to create tracer" and no tracer exists. A built tracer has the caller's hop limit, a 2 s send rate, a 15 s receive timeout and a 60 s trace timeout. |
| `TraceCommand.HopsInReceiveOrder` | src-tauri/src/lib.rs:78-102 | After the resolution events, the run emits the messages before the cut-off as hop events, in receive order, with `host_name` = sequence number. No hop event follows them. |
| `TraceCommand.FinalEventIsLast` | src-tauri/src/lib.rs:104-135 | In every run, any failure or terminal event is the last event, so there is at most one. |
| `TraceCommand.CancelObserved` | src-tauri/src/lib.rs:78-135 | Suppose only cancel requests touch the flag and a read up to the k-th finds it set. Then the run forwards at most k messages and ends with `trace_cancelled` "Trace cancelled". |
| `TraceCommand.CompletesWithoutCancel` | src-tauri/src/lib.rs:104-129 | When no read finds the flag set, every message is forwarded. The join then decides the end: `trace_complete` with status and probe time, `trace_error` "Trace error: …", or nothing when the prober panicked. |
| `TraceCommand.QuietFlagStaysClear` | src-tauri/src/lib.rs:20 | With no cancel request stored after the reset (stores of `false` by overlapping runs allowed), no read finds the flag set. |
| `TraceCommand.NoCancelWithoutRequest` | src-tauri/src/lib.rs:17-20 | A run in which no cancel request is stored after its reset (resets by overlapping runs allowed) never emits `trace_cancelled`. |
| `AppCommands.AppState.constructor` | src-tauri/src/lib.rs:150-152 | The application starts with the cancel flag clear. |
| `AppCommands.AppState.CancelTrace` | src-tauri/src/lib.rs:141-145 | `cancel_trace` sets the flag. |
| `AppCommands.AppState.Interfere` | src-tauri/src/lib.rs:141-145 | A store by another thread leaves the flag as that store sets it (a cancel or another run's reset). |
| `AppCommands.AppState.Trace` | src-tauri/src/lib.rs:17-139 | The command emits exactly the events of `TraceRun` and builds its tracer, whatever the flag held before the call. Afterwards the flag holds what the terminal read found, or false when no tracer ran. |
| `AppCommands.CancelBeforeRun` | src-tauri/src/lib.rs:20 | A cancel requested before a run starts is cleared by the reset and never shows as `trace_cancelled`, as long as no cancel request is stored during the run (resets by overlapping runs allowed). |
| `TraceStore.Includes` | src/lib/Store.ts:64 | No contract: the definition of substring containment used on the geo response body. It is used by `LocateHop`, whose contract states both outcomes. |
| `TraceStore.NewTrace` | src/lib/Store.ts:37-47 | No contract: the definition of the record `startTrace` appends. Its properties are `Store.StartTrace`, `StartedTraceIsCurrent` and `ReusedIdShadowsNewTrace`. |
| `TraceStore.LocateHop` | src/lib/Store.ts:55-84 | The geo lookup changes at most the hop's `geo`. A usable response sets `geo` and keeps `api_error`. A count-exceeded body, a non-ok status, a thrown request or an unparsable body each leave the hop as it was and set their own `api_error` text. |
| `TraceStore.FindIndex` | src/lib/Store.ts:87-88 | The result is the index of the first trace with the id, or -1 exactly when no trace has it. |
| `TraceStore.WithHop` | src/lib/Store.ts:86-92 | The hop is appended at the end of the hops of the first trace with the id. All of that trace's other fields, all other traces and the number of traces are unchanged. An unknown id changes nothing. |
| `TraceStore.Finished` | src/lib/Store.ts:95-103 | Only the first trace with the id is marked finished; its hops and other fields, all other traces and the count are unchanged. An unknown id changes nothing. |
| `TraceStore.Matching` | src/lib/Store.ts:118 | The filter keeps exactly the traces that have the id: every kept trace has it, and every trace with it is kept. It is no longer than the input. |
| `TraceStore.MatchingHead` | src/lib/Store.ts:116-119 | The filter is empty exactly when no trace has the id. Otherwise its first element is the first trace with the id. |
| `TraceStore.CurrentTrace` | src/lib/Store.ts:116-119 | The current trace is the first trace whose id is the current id. There is none when no id is current or no trace has it. |
| `TraceStore.Store.constructor` | src/lib/Store.ts:7-22 | The store starts with the given traces and with no error, current id or geo error. |
| `TraceStore.Store.StartTrace` | src/lib/Store.ts:24-53 | Exactly one unfinished trace with the given fields and no hops is appended at the end. The id becomes current and `error` is cleared. `api_error` is kept. |
| `TraceStore.Store.AddHop` | src/lib/Store.ts:55-93 | The hop, as located by the geo lookup, is appended to the first trace with the id, whatever the lookup gave. `api_error` is as the lookup left it; the current id and `error` are unchanged. |
| `TraceStore.Store.FinishTrace` | src/lib/Store.ts:95-103 | The traces are marked as `Finished` says; the current id and both error texts are unchanged. |
| `TraceStore.FindIndexSameIds` | src/lib/Store.ts:97-100 | The first index of an id depends only on the traces' ids, so updating hops or the finished mark never moves it. |
| `TraceStore.FindIndexAppend` | src/lib/Store.ts:34-48 | Appending a trace keeps an earlier match. Otherwise the new trace is found exactly when it has the id. |
| `TraceStore.FinishIdempotent` | src/lib/Store.ts:95-103 | Finishing a trace twice is the same as finishing it once. |
| `TraceStore.WithHopAddsOneHop` | src/lib/Store.ts:86-92 | Appending a hop adds exactly one hop over all traces when the id is known, and none otherwise. |
| `TraceStore.StartedTraceIsCurrent` | src/lib/Store.ts:34-51 | After starting a trace under an id that no trace has yet, the current trace is the new one, and a hop for that id lands on it. |
| `TraceStore.ReusedIdShadowsNewTrace` | src/lib/Store.ts:32-49 | Ids are not checked for uniqueness. After starting a trace under an id an older trace has, the current trace and the target of `addHop` are the older trace, found at the same index as before the append. |
| `RuneStore.TraceEntry.constructor` | src/lib/Store.svelte.ts:46-55 | A new record has the given id and fields and no hops. |
| `RuneStore.FindTrace` | src/lib/Store.svelte.ts:60 | The result is the position of the first record with the id, or -1 exactly when none has it. |
| `RuneStore.FindTraceAppend` | src/lib/Store.svelte.ts:45-60 | Pushing a record keeps an earlier match. Otherwise the new record is found exactly when it has the id. |
| `RuneStore.Store.constructor` | src/lib/Store.svelte.ts:33-35 | The store starts with the given records and no current id. |
| `RuneStore.Store.CurrentTraceId` | src/lib/Store.svelte.ts:70-72 | No contract: the definition of the getter. Its properties are `Store.StartTrace` (afterwards the getter returns the new id) and `StartThenAddHop` (the id stays current after `addHop`). |
| `RuneStore.Store.StartTrace` | src/lib/Store.svelte.ts:37-57 | Exactly one fresh record with the given fields and no hops is pushed at the end, and existing records and their hops are unchanged. The getter then returns the new id. |
| `RuneStore.Store.AddHop` | src/lib/Store.svelte.ts:59-64 | The hop is pushed onto the end of the first record with the id. The array, the current id and every other record's hops are unchanged. With no such record nothing changes. |
| `RuneStore.StartThenAddHop` | src/lib/Store.svelte.ts:37-64 | Starting a trace under a new id and then adding a hop for it puts the hop on the new record only, and the getter still returns that id. |

## Left out

- Threads, `Arc`, atomic memory ordering and the mutex around the receiver (src-tauri/src/lib.rs:70-78). The drain loop runs in sequence, and other threads' flag stores are a per-read schedule. The `trace` command returning before the loop ends is not modelled.
- The probing library (`Tracer::new`, `trace()`, the progress receiver). It is a black box: whether construction succeeds, the list of messages received before the channel closes, and the join outcome.
- Text parsing of addresses and the DNS lookup (`parse`, `to_socket_addrs`). They are inputs; only the unspecified-address check is modelled.
- `TraceCommand.Lookup` is unconstrained, but `to_socket_addrs` on a string needs "host:port" text. A bare host name such as "example.com" fails that call, so at src-tauri/src/lib.rs:38-41 it gets `trace_fail` "Invalid IP address or domain". The model does not capture which inputs reach the successful-lookup branch.
- Event transport and formatting: `app.emit` appends to the event list. The model leaves out JSON serialisation, `{:?}` formatting of the node type and status, address-to-text conversion and `as_millis`; messages carry the round-trip time in milliseconds. Logging (`eprintln!`, `console.log`) is left out too.
- Emit failures. A failed `hop`, `trace_complete`, `trace_error` or `trace_cancelled` emit is only logged and does not change control flow, so the event list is the list of emit calls. A failed `trace_dns` or `trace_fail` emit panics (`.expect`); that panic is not modelled.
- The application builder and `run()` (src-tauri/src/lib.rs:148-157), except the initial flag value.
- The geo HTTP request and `JSON.parse` in `addHop` (src/lib/Store.ts:57-70). Their outcome is the `GeoOutcome` parameter. `addHop` runs to completion at once; other store updates that could interleave during the `await` are not modelled.
- `crypto.randomUUID`: the id is a parameter, and uniqueness is not assumed.
- Svelte runtime: `setContext`/`getContext`, `writable`/`derived` subscriptions, `$state` runes and the `...data` spread in the returned object (src/lib/Store.svelte.ts:67). `getCurrentTrace` is the pure function `TraceStore.CurrentTrace` of the store's traces and current id.
- In `src/lib/Store.ts` traces are values, so two entries that alias one object in the initial data are not modelled as aliases. The rune store models records as objects and keeps such aliasing.
- JavaScript numbers are `int` (latitude and longitude `real`); no floating point is modelled.
- svelte.config.js and src/lib/utils/types.ts hold build configuration and type-level helpers only.
