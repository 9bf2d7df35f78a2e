# Monocle loader — a Dafny model

The Monocle loader is a small browser library. It injects the vendor's
assessment script (`https://mcl.spur.us/d/mcl.js?tk=<token>`) into
`document.head`. It exposes the vendor's result as a promise and as
`assessment`, `error` and `load` events. Its whole core is the `Monocle`
class in `src/index.ts`. This project models three parts of it:

- **Lifecycle.** `init()` and `destroy()` and the four callbacks an `init()`
  creates: the script's `load` and `error` listeners, the timeout timer and
  the global bridge `window._onAssessment`.
- **Handler registry and dispatch.** `on()`, `off()` and `_dispatch()`, with
  handlers compared by identity and wrapped once per registration.
- **Retry loop.** The bounded loop of `getAssessment()`: refresh, retrieve,
  return the first truthy value, re-throw a vendor error, wait and try
  again after an empty value, and fail with "No data" at the end.

The project has seven files:

- `common.dfy` (module `Common`) holds the failures, with their exact error
  messages, and the events.
- `uri.dfy` (module `Uri`) is `encodeURIComponent`: UTF-8 percent-encoding
  of everything but the unreserved characters.
- `registry.dfy` (module `Registry`) is the handler table and the filter
  that `off()` applies.
- `retry.dfy` (module `Retry`) holds `Run`, the reference definition of the
  loop, and `Retrieve`, the loop itself, proved against it.
- `lifecycle.dfy` (module `Lifecycle`) holds the whole state as one value
  (`Model`): the loader's fields, the head's scripts, `window._onAssessment`,
  `window.MCL` and every handler invocation so far. It has one step function
  per method or callback, the invariant `Inv`, and a proof that every step
  keeps `Inv`.
- `lifecycle_props.dfy` (module `LifecycleProperties`) holds the behaviour
  the library promises, proved of those steps.
- `monocle.dfy` (module `MonocleLoader`) is the class `Monocle`. Its fields
  are the loader's private fields. Each method changes them in place and
  ensures `Snapshot() == <step>(old(Snapshot()))` together with `Valid()`.
  `off()` and the residual-script sweep of `destroy()` are loops with their
  invariants.

Each `init()` that starts loading opens a new *cycle*, numbered from 0. A
cycle records the state of its own promise (pending, resolved or rejected)
and whether its timer is armed. It also records its delay and whether its
script has fired `load` or `error`. The source's closures capture their own
timer, promise and script element, so a callback of an older cycle acts on
that cycle, as in the source. Scripts are identified as `Page(n)` (already
on the page) or `Injected(k)` (created by cycle k).

Three properties are worth calling out:

- **`init()` is idempotent.** While initialized it returns the same
  promise. After a failure or a timeout it starts over.
- **`off()` undoes `on()`.** An `on()` of a new handler followed by `off()`
  restores the table exactly. After `off(e, h)`, a later dispatch of `e` no
  longer reaches `h` until it is registered for `e` again; other events it
  is registered for still reach it.
- **Settled promises stay settled.** No step, stale callbacks included,
  changes a promise that has settled.

The model also exposes a gap in the source:

- `destroy()` does not clear a pending timer. If `init()` runs again before
  that timer fires, the old timer removes the new script, uninitializes the
  loader and dispatches a timeout error. The new cycle's promise is left
  pending (`StaleTimerTearsDownNextCycle`).
- The head can hold two injected scripts at once. The `error` listener of an
  older cycle uninitializes the loader whichever cycle is current, and
  leaves the current script in place. `destroy()` then returns at once, and
  the next `init()` injects a second script
  (`StaleErrorStrandsScript`). "At most one injected script" therefore
  holds only right after `destroy()` of an initialized loader
  (`ReinitAfterDestroy`).

Where the code, its comments and its tests disagree, the model follows the
code:

- **Default `retries`.** The doc comment of `getAssessment` says 3. The
  signature says 5, and the model uses 5 when the caller passes none
  (`Retry.DefaultRun`).
- **Number of delays.** The loop waits after every empty attempt, the last
  one included. A run of `retries` empty values therefore makes `retries`
  delays, not `retries - 1` (`Retry.RunExhausts`).
- **What `load` does.** The `load` listener does not resolve the `init()`
  promise. The test at `tests/monocle.spec.ts:57-75` expects it to. In the
  code, only `window._onAssessment` resolves it (`LoadNeverSettles`).
- **Outdated tests.** Several tests use callback and event names the code
  does not define: `monocleSuccessCallback` and `monocle-success`
  (`tests/monocle.spec.ts:113-178`). One test expects `on()` to call
  `init()` (`tests/monocle.spec.ts:262-268`). In the code, `on()` creates a
  new event target instead.
- **Timeout check.** `initTimeout` is used when it is truthy: any non-zero
  number, negative ones included. A missing or zero value becomes 5000.

## Model

| member | source | states |
|---|---|---|
| Common.Message | src/index.ts:37-179 | every failure the loader builds itself has a message, and every such message starts with "[Monocle] "; a vendor error is passed on with the vendor's own message |
| Uri.Encode | src/index.ts:104 | the token as encodeURIComponent writes it: every output character is unreserved or `%`, so the token cannot end the query value, and the output is never shorter than the input |
| Uri.EncodeAppend | src/index.ts:104 | encoding works character by character: the encoding of a concatenation is the concatenation of the encodings |
| Uri.EncodeUnreserved | src/index.ts:104 | a token made only of unreserved characters is put into the URL unchanged |
| Registry.Deliveries | src/index.ts:51-53 | one dispatch calls every registration for the event, in registration order, each with the event's detail; what this means for one handler, reached exactly once when registered and never otherwise, is Registry.DeliveredOnce |
| Registry.Without | src/index.ts:213-220 | off()'s filter never lengthens the list |
| Registry.WithoutSnoc | src/index.ts:213-220 | the remaining list grows by one entry per step of the forEach, for exactly the entries whose original is not the handler |
| Registry.WithoutMembers | src/index.ts:213-220 | an entry remains after off() if and only if it was there and its original is not the handler |
| Registry.WithoutAbsent | src/index.ts:211-225 | off() of a handler that is not in the list keeps the list unchanged |
| Registry.WithoutSingle | src/index.ts:212-220 | since a handler is registered at most once per event, off() removes exactly its one entry and keeps the rest in order |
| Registry.WithoutDistinct | src/index.ts:213-220 | the filter never creates a duplicate registration |
| Registry.WithoutUnregisters | src/index.ts:212-220 | after off() the handler is no longer registered for the event |
| Registry.AddedWellFormed | src/index.ts:191-202 | on() with a new handler keeps the table well formed: no empty list, no duplicate handler per event, every wrapper fresh and used once |
| Registry.RemovedWellFormed | src/index.ts:208-226 | off() keeps the table well formed; an emptied event key is deleted, not kept as an empty list |
| Registry.OffUndoesOn | src/index.ts:187-226 | off() after on() of a handler new to the event restores the table exactly, with no key left behind where there was none |
| Registry.RemovedIdempotent | src/index.ts:208-226 | off() twice is the same as off() once |
| Registry.DeliveredOnce | src/index.ts:51-53 | one dispatch reaches a handler exactly once when it is registered for the event and not at all otherwise |
| Retry.Retrieve | src/index.ts:162-181 | the loop computes Run exactly: a returned value is the vendor's non-empty string from the last attempt, and every earlier attempt came back empty |
| Retry.SkipEmpty | src/index.ts:174-176 | each empty attempt adds exactly one attempt and one delay and changes nothing else |
| Retry.RunBounds | src/index.ts:156-181 | at most `retries` attempts (none when it is not positive); never more delays than attempts; exactly one `error` dispatched for a thrown failure, none for a missing MCL |
| Retry.RunFromBounds | src/index.ts:162-181 | the same bounds for the loop from any attempt number; the loop itself never reports a missing MCL |
| Retry.RunReturnsFirstValue | src/index.ts:162-168 | the first truthy value, at attempt n, is returned at once after n - 1 empty attempts and n - 1 delays, and nothing is dispatched |
| Retry.RunStopsOnThrow | src/index.ts:169-173 | a refresh() or retrieval that throws is not retried: its own error is dispatched once and re-thrown at that attempt |
| Retry.RunExhausts | src/index.ts:174-181 | when every attempt is empty: exactly `retries` attempts and `retries` delays, then the NoData failure is dispatched and thrown |
| Retry.DefaultRun | src/index.ts:148-181 | a call without `retries` makes at most 5 attempts, and against a vendor that stays empty exactly 5 attempts and 5 delays before NoData is dispatched and thrown |
| Lifecycle.Configure | src/index.ts:35-46 | the constructor throws NoToken exactly when the token is missing or empty; a non-zero initTimeout is kept and a missing or zero one becomes 5000; debug is on only when given as true |
| Lifecycle.DetachRemoves | src/index.ts:116-120 | after removeChild the element is not in the head, and every other script stays |
| Lifecycle.DetachAbsent | src/index.ts:80-82 | removing an element that is not attached leaves the head as it is, which is what the timer's parentNode check guards |
| Lifecycle.PurgeKeeps | src/index.ts:237-239 | after the sweep a script remains if and only if it was there and its src does not mention mcl.spur.us |
| Lifecycle.PurgeSnoc | src/index.ts:237-239 | the sweep keeps or drops the scripts one at a time, in order |
| Lifecycle.FreshInv | src/index.ts:35-46 | a newly constructed loader satisfies the invariant |
| Lifecycle.DispatchKeepsInv | src/index.ts:51-53 | dispatch only appends handler calls: it keeps the invariant and changes nothing else |
| Lifecycle.DispatchErrorsKeepsInv | src/index.ts:169-181 | dispatching the loop's failures keeps the invariant and changes only the calls |
| Lifecycle.InitKeepsInv | src/index.ts:59-136 | init() keeps the invariant: initialized exactly when a ready promise exists, and that promise belongs to the newest cycle and is not rejected; while initialized, the current script is attached; the bridge is the newest cycle's; every injected script's src is the vendor URL with the token; an armed timer's promise is pending |
| Lifecycle.LoadKeepsInv | src/index.ts:106-111 | the load listener keeps the invariant |
| Lifecycle.ErrorKeepsInv | src/index.ts:113-127 | the error listener keeps the invariant |
| Lifecycle.TimeoutKeepsInv | src/index.ts:78-89 | the timeout callback keeps the invariant |
| Lifecycle.AssessmentKeepsInv | src/index.ts:91-96 | the bridge callback keeps the invariant |
| Lifecycle.OnKeepsInv | src/index.ts:187-203 | on() keeps the invariant, the registry's well-formedness included |
| Lifecycle.OffKeepsInv | src/index.ts:208-226 | off() keeps the invariant |
| Lifecycle.DestroyKeepsInv | src/index.ts:231-261 | destroy() keeps the invariant |
| Lifecycle.FinishAssessmentKeepsInv | src/index.ts:154-181 | getAssessment() after its await keeps the invariant |
| Lifecycle.NextKeepsInv | src/index.ts:59-261 | whatever happens next (a method call, a script event, a timer, the vendor's callback), the invariant holds afterwards |
| LifecycleProperties.InitIdempotent | src/index.ts:64-71 | init() while initialized returns the newest cycle's promise, which is not rejected, and changes nothing; a second init() after any init() returns the same promise and state |
| LifecycleProperties.InitInjectsOneScript | src/index.ts:73-135 | init() from scratch appends exactly one script (id `_mcl`, async, deferred, src = vendor URL + `?tk=` + the encoded token); installs the bridge for the new cycle; arms its timer with initTimeout and leaves its promise pending; touches no handler, call or global |
| LifecycleProperties.InitOutsideBrowser | src/index.ts:60-62 | outside a browser init() returns a rejected promise with the SSR message and changes nothing |
| LifecycleProperties.ScriptErrorResets | src/index.ts:113-127 | a script error clears its cycle's timer, removes that script, keeps every other script and uninitializes the loader; it dispatches one LoadFailed error and rejects the cycle's promise unless it had settled; other cycles are unchanged |
| LifecycleProperties.TimeoutResets | src/index.ts:78-89 | the timer removes the current script and uninitializes the loader; it dispatches one error carrying the configured duration in its message and rejects the still-pending promise with it |
| LifecycleProperties.AssessmentResolves | src/index.ts:91-96 | the vendor's callback clears the timer, dispatches one `assessment` with exactly the JWT and resolves the promise unless it had settled; the loader state and head are unchanged |
| LifecycleProperties.LoadNeverSettles | src/index.ts:106-111 | `load` only stores window.MCL and dispatches `load`; no promise settles and no timer changes |
| LifecycleProperties.SettledStaysSettled | src/index.ts:59-261 | no step changes a promise that has settled, and no cycle is forgotten |
| LifecycleProperties.StaleTimerTearsDownNextCycle | src/index.ts:78-89 | destroy() leaves an armed timer running; after a re-init it removes the new script and uninitializes the loader while the new promise is still pending |
| LifecycleProperties.StaleErrorStrandsScript | src/index.ts:113-127 | the error listener of an older cycle uninitializes the loader while the current script stays; destroy() then changes nothing, and the next init() leaves two injected scripts in the head |
| LifecycleProperties.InitKeepsAttached | src/index.ts:73-135 | init() from the uninitialized state keeps every script of the head and attaches its own |
| LifecycleProperties.InjectedSrcIncludesHost | src/index.ts:2 | the vendor URL mentions mcl.spur.us, so the sweep in destroy() catches every injected script |
| LifecycleProperties.IncludesAt | src/index.ts:238 | `includes` finds a substring at any position |
| LifecycleProperties.DestroyTearsDown | src/index.ts:231-261 | destroy() while uninitialized changes nothing; otherwise only page scripts that do not mention the vendor host remain, and all of them remain; bridge, MCL, vendor object, script, event target and handlers are gone; the loader is uninitialized; timers and promises are untouched |
| LifecycleProperties.ReinitAfterDestroy | src/index.ts:258-260 | after destroy() of an initialized loader, init() injects a fresh script, and it is the only injected script in the head |
| LifecycleProperties.AssessmentReachesHandlerOnce | src/index.ts:187-203 | registering a new handler keeps the invariant; a handler registered for `assessment` hears the vendor's assessment exactly once, with exactly its JWT, last in that dispatch |
| LifecycleProperties.OffStopsDelivery | src/index.ts:208-226 | after off() the handler receives nothing from a later dispatch of that event |
| LifecycleProperties.OnOffRoundTrip | src/index.ts:187-226 | on() twice is on() once, and off() undoes the on() of a handler that was not registered |
| LifecycleProperties.OffUnknownIsNoop | src/index.ts:208-226 | off() of an unregistered handler changes nothing; off() twice is off() once |
| LifecycleProperties.FinishAssessmentReports | src/index.ts:154-181 | after a rejected init() its failure is re-thrown with nothing dispatched; after a resolved one the loop's result is returned and its failure, unless MCL is missing, is dispatched as one `error` |
| MonocleLoader.Monocle.constructor | src/index.ts:35-46 | a new loader: uninitialized, no script, no handlers, an event target present |
| MonocleLoader.Monocle.Create | src/index.ts:35-46 | construction fails with NoToken exactly when the token is missing or empty; otherwise it yields a fresh, valid loader |
| MonocleLoader.Monocle.Dispatch | src/index.ts:51-53 | `_dispatch` appends exactly the calls Lifecycle.Dispatch describes and changes no other field |
| MonocleLoader.Monocle.Init | src/index.ts:59-136 | the fields and the returned promise are InitStep of the old state, and the invariant holds |
| MonocleLoader.Monocle.OnLoad | src/index.ts:106-111 | the new state is LoadStep of the old one |
| MonocleLoader.Monocle.OnError | src/index.ts:113-127 | the new state is ErrorStep of the old one |
| MonocleLoader.Monocle.OnTimeout | src/index.ts:78-89 | the new state is TimeoutStep of the old one |
| MonocleLoader.Monocle.OnAssessment | src/index.ts:91-96 | the new state is AssessmentStep of the old one |
| MonocleLoader.Monocle.GetAssessment | src/index.ts:148-154 | refuses on the server side, else awaits init(): BeginAssessmentStep of the old state |
| MonocleLoader.Monocle.ResumeAssessment | src/index.ts:148-181 | after the await: the fields and the result are FinishAssessmentStep of the old state, run with the caller's `retries` or the default 5, with the loop run by Retry.Retrieve |
| MonocleLoader.Monocle.On | src/index.ts:187-203 | the new state is OnStep of the old one |
| MonocleLoader.Monocle.Off | src/index.ts:208-226 | the forEach loop builds exactly the filtered list; the new state is OffStep of the old one |
| MonocleLoader.Monocle.PurgeVendorScripts | src/index.ts:236-239 | the sweep loop keeps exactly the scripts Purge keeps |
| MonocleLoader.Monocle.Destroy | src/index.ts:231-261 | the new state is DestroyStep of the old one |

## Left out

- The DOM and EventTarget are not modelled as such. The head is a sequence
  of script records. The event target is a flag plus the handler table.
  Handlers and wrappers are opaque identities. A handler call is recorded,
  not executed, so a handler that re-enters the loader is not modelled.
- Microtask and task ordering is left out. Each method and callback is one
  atomic step, and `getAssessment()` is two: before and after its
  `await this.init()`. The retry loop is atomic. No other step can
  interleave with its awaits or delays.
- `window` and `document` are fields of one loader. Two loaders sharing one
  page's globals are not modelled. Whether a window exists is fixed per
  loader (`ssr`).
- The vendor object is a script of outcomes (`Retry.Vendor`: what attempt n
  yields). Its internals, the network, and how the vendor script loads and
  calls back are not modelled. The value of `window.MCL` at `load` is a
  parameter.
- `delayMs` is not modelled; only the number of delays is counted. Timer
  delays are recorded but not run against a clock.
- `console.warn` debug logging is not modelled. It changes no state.
- Retry.Value: only `null`, `undefined` and strings are modelled as
  vendor results. Other truthy non-string values are not.
- Lifecycle.Configure: initTimeout is an integer. NaN, fractional values
  and non-number types are not modelled. Common.Decimal always writes
  every digit, while a template literal writes a number of 1e21 or more in
  exponent form and loses digits above 2^53.
- MonocleLoader.Monocle.ResumeAssessment: `retries` is an integer or
  absent (absent and `undefined` both mean 5). A fractional, NaN or
  Infinity `retries` is not modelled. In the source a fractional value
  runs as many attempts as its integer part, NaN runs none, and Infinity
  never runs out while the vendor stays empty. JavaScript numbers are
  outside the integer domain the model uses.
- Uri.Encode: characters are Unicode scalar values. The URIError that
  encodeURIComponent throws on a lone UTF-16 surrogate is not modelled.
- A rejected promise's reason is the failure kind. Error objects and their
  stack traces are not modelled.
