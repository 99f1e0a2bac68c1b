# dagwood: bidirectional middleware, modelled in Dafny

`dagwood` exports one factory, `BidirectionalMiddleware(name, requestHandler,
responseHandler)`. It returns a Connect-style `processRequest(req, res, next)`.
When the unit has a response handler, `processRequest` replaces `res.end` with
a wrapper. Calling that wrapper runs the response handler first and passes it a
continuation that calls the `end` the wrapper replaced. A marker record kept on
the response, `res['_dagwood-' + name].processResponseHasBeenCalled`, makes sure
each unit's response handler runs at most once per response. Units chained in a
host stack wrap in registration order, so their response handlers unwind in
reverse: the last registered runs first, and the original `end` runs last.

The model has three modules:

- `Dagwood` (dagwood.dfy) models index.js itself.
  - A unit is a value: its namespace key, its request handler and an optional response handler.
  - A handler is described by what it does: the trace entries it writes, and whether it calls its continuation or stalls.
  - The response is a class. Its `end` field is the stack of wrapper layers over the original emit operation; each layer carries the namespace whose `isWrapped` marker it holds.
  - The response's other fields are the per-namespace `processResponseHasBeenCalled` flags, the application's trace, the argument lists the original emit received, the length of the trace at each of those emits, and the namespaces whose response handler was invoked.
  - `ProcessRequest` reassigns `res.end`. `Response.Invoke` is the wrapper call; it recurses into the inner `end` as the closures do.
  - Both methods are proved equal to pure functions (`AfterRequest`, `Dispatch`); the lemmas are stated about those functions.
- `Properties` (properties.dfy) proves what one unit guarantees about one response.
- `Chain` (chain.dfy) models the host chain as a loop over the units followed by a terminal `res.end(body)`. It proves the last-in-first-out ordering for any number of units, and checks the integration test's two-unit trace.

The index.js doc comment says the wrapped function is `res.send`. The code wraps `res.end`, and so does the model.

`isWrapped` is a property of the wrapper function object (index.js:101-102), and the idempotency check reads it only on the currently bound `res.end` (index.js:76). A unit registered again after another unit has wrapped therefore wraps again: `a`, `b`, `a` leave three layers (`Chain.RepeatedUnitFiresOnce`).

## Model

| member | source | states |
|---|---|---|
| `Dagwood.Namespace` | index.js:53 | the key is the prefix `_dagwood-` followed by the caller's name, so its length and both parts are determined |
| `Dagwood.NewMiddleware` | index.js:46-57 | the unit's key carries the prefix and the name; a missing request handler becomes the pass-through; the response handler is kept as given (absent when not a function) |
| `Dagwood.IsWrapped` | index.js:76 | an `end` is wrapped by a namespace exactly when its topmost layer carries that namespace; the original emit, with no layer, is wrapped by none |
| `Dagwood.WrapEnd` | index.js:74-104 | the result is always wrapped by the namespace; it equals the input exactly when the bound `end` already carried this namespace's marker; otherwise exactly one layer with this namespace and handler is added on top of an unchanged stack |
| `Dagwood.AfterRequest` | index.js:106-113 | `processRequest` leaves markers, emits and the invocation record alone, appends the request handler's writes to the trace, keeps `end` without a response handler, and otherwise leaves `end` wrapped by the unit with at most one layer added on top of the old stack |
| `Dagwood.Dispatch` | index.js:80-99 | calling a wrapped `end` never changes the bound `end`, only appends to the trace and the invocation record, emits either nothing or exactly the call's arguments once, records the emit at the trace length reached when it runs, and never clears a set marker |
| `Dagwood.Response.Invoke` | index.js:80-99 | the wrapper call as a recursive method: creates the marker record if absent, forwards when the flag is set, otherwise sets it, runs the handler and calls the inner `end` only if the handler continues; the new state equals `Dispatch` |
| `Dagwood.Response.End` | index.js:88-99 | `res.end(args)` leaves the bound `end` unchanged and updates the response as `Dispatch` over every layer |
| `Dagwood.ProcessRequest` | index.js:66-114 | wraps only when a response handler is present and otherwise leaves `end` identical; afterwards `end` carries the unit's marker; markers and emits are untouched; the request handler's writes are appended; returns whether it called `next` |
| `Properties.NamespacesDistinct` | index.js:53 | distinct caller names give distinct namespace keys |
| `Properties.NamespaceAvoidsUnprefixed` | index.js:52-53 | no namespace key equals a property name that lacks the `_dagwood-` prefix |
| `Properties.DefaultRequestHandlerPassesThrough` | index.js:57 | with no request handler the unit calls `next` and writes nothing; with no response handler either, the response is left exactly as it was |
| `Properties.NoResponseHandlerNoInterception` | index.js:106-109 | without a response handler, `processRequest` leaves `end` and the markers unchanged |
| `Properties.ProcessingTwiceWrapsOnce` | index.js:74-78 | running the same unit twice in a row adds at most one layer; the second run leaves `end` as the first bound it |
| `Properties.WrapChecksOnlyTheTop` | index.js:76 | when the bound `end` carries another namespace's marker, the unit wraps again even if a deeper layer is its own |
| `Properties.FirstCallInvokesHandler` | index.js:84-99 | the first call of a unit's wrapper marks its namespace, invokes its response handler first (its writes come first, it is the first invocation recorded) and emits nothing if the handler stalls |
| `Properties.CalledLayersForward` | index.js:90-93 | when every layer's flag is set, calling `end` only forwards the arguments to the original emit, with no handler run |
| `Properties.ReachingEmitMarksEveryLayer` | index.js:88-94 | a call that reaches the original emit leaves every layer it passed flagged |
| `Properties.SecondEndOnlyEmits` | index.js:90-93 | after a call of `end` has reached the original emit, a later call runs no response handler and emits its own arguments unchanged |
| `Properties.DispatchKeepsFiredOnce` | index.js:88-94 | calling `end` keeps the invocation record free of repeats and equal to the set of flagged namespaces: each response handler runs at most once per response |
| `Properties.RequestKeepsFiredOnce` | index.js:106-113 | `processRequest` preserves the same at-most-once invariant |
| `Properties.EmitReachedIffUnblocked` | index.js:96-99 | a call of `end` reaches the original emit if and only if no layer has an unflagged, stalling handler that is the topmost layer of its namespace |
| `Chain.RequestPhase` | index.js:7-17 | the host's request phase completes exactly when every unit's request handler calls `next`; it never touches markers, emits or the invocation record, only appends to the trace, and stacks at most one layer per unit over the old `end` |
| `Chain.Serve` | index.js:7-17 | one request through the chain and the terminal `end`: the trace and the invocation record only grow; the original emit runs at most once, with the terminal arguments, only when every request handler called `next`, and after every write of the run |
| `Chain.RunChain` | index.js:7-17 | the host's chain loop (processRequest of each unit in order, stopping at a stalled request handler, then the terminal `end`) equals `Serve`, and reports whether every unit proceeded |
| `Chain.RequestPhaseStacksLayers` | index.js:106-113 | with distinct names and continuing request handlers, every unit proceeds, each wraps the `end` left by the previous one, and the request trace is in registration order |
| `Chain.UnwindRunsEveryLayer` | index.js:84-99 | over distinct, unflagged, continuing layers, calling `end` runs every response handler from the top down, then emits the arguments exactly once |
| `Chain.ChainUnwindsInReverse` | index.js:7-17 | for any number of distinct, continuing units on an untouched response: the trace is the request writes in registration order followed by the response writes in reverse order; handlers fire last-registered first; the original emit receives the terminal handler's arguments once, and the trace already holds every request and response write when it runs |
| `Chain.TwoUnitsServe` | index.js:7-17 | two distinct units whose handlers continue: request writes `a, b`, then response writes `b, a`, then one emit of the body at the end of that trace |
| `Chain.TwoUnitsUnwindInReverse` | tests/integration/index.js:15-58 | units `a`, `b` and `end('Hello World!')` give the trace `a.setup, b.setup, b.teardown, a.teardown`, and `'Hello World!'` is emitted once, after all four entries |
| `Chain.StalledResponseNeverEmits` | index.js:96-99 | a response handler that never calls its continuation leaves the response unemitted |
| `Chain.RepeatedUnitServe` | index.js:74-94 | `a`, `b`, `a` with continuing handlers stack three layers, and the response trace holds `a`'s writes once, before `b`'s |
| `Chain.RepeatedUnitFiresOnce` | index.js:74-94 | `a`, `b`, `a` stack three layers, yet `a`'s response handler runs once, because its flag lives on the response |
| `Chain.SecondEndServe` | index.js:88-99 | when the outer response handler stalls, the terminal `end` emits nothing; a second `end` skips that handler, runs the inner one and emits its own arguments |
| `Chain.SecondEndPassesStalledHandler` | index.js:90-93 | a second `end` call after a stalled handler skips that handler, runs the outer ones and emits its own arguments |

## Left out

- The request object is passed through unread and is not modelled.
- What a handler does is reduced to the trace entries it writes and whether it calls its continuation once. The model does not cover a handler that calls `next` more than once, reads or changes other parts of `req`/`res`, or calls `res.end` from inside a response handler.
- The trace that the integration test keeps in a closure array is kept on the response object in the model.
- Asynchronous or delayed continuations, and the hang after a stall, are not modelled. A stall is "the continuation is never called". There are no timeouts.
- Exceptions thrown by caller-supplied handlers are not modelled. They propagate unmodified in the source.
- The `new` operator returning `this.processRequest` (index.js:119) is not modelled, nor is the `instance.processResponse` indirection (index.js:116). Nothing outside can reach `instance`, so each layer carries its unit's response handler directly.
- The `this` binding inside the wrapper is not modelled. `end` is assumed always to be called on the response it was installed on, so `this[namespace]` and `res` are the same object.
- The host framework's dispatcher is modelled only as a loop over the units followed by one terminal `end` call. Error middleware, routing and Express's `res.send` calling `res.end` are not part of this model.
- The supertest/Connect/Express harness, HTTP status codes and `NODE_ENV` setup (tests/test-helper.js) are not part of this model.
- Dagwood.Response.Invoke: does not model the wrapper's return value. On a flagged call it returns what the inner `end` returns (index.js:92); on a first call it returns `undefined` (index.js:97-99).
- Dagwood.Response.End: does not model the return value of `res.end` either, for the same reason.
- Dagwood.ProcessRequest: does not return the request handler's own return value, which `processRequest` passes on (index.js:113). `proceeded` only says whether the handler called `next`.
- A truthy request handler that is not a function would throw when called in the source. The model has no such value: a request handler is either given or absent.
