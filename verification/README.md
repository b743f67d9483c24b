# routekit in Dafny

A model of the two helpers of routekit, a thin layer over Express routing.

- **`createRouteHandler`** (`src/router_utils.ts`) registers a list of route configs on a router.
  - For each route, in input order, it builds the key `"METHOD path"`.
  - It warns when that key was already seen in the same call, and otherwise remembers it.
  - It composes the route's middleware stack: global middlewares, then the optional auth middleware, then the route's own middlewares, then the handler.
  - If `logRoutes` is set, it logs the route and its description.
  - It registers the stack with `router[method](path, ...stack)`.
  - It returns the router it was given.
- **`withErrorHandling`** (`src/with_error_handling.ts`) wraps an async controller.
  - A controller that fails (its promise rejects, or it throws) has its error passed to Express's `next`.
  - A controller that succeeds leaves `next` uncalled.

The model is written in a functional style:

- Routers, handlers, middlewares, requests and responses are opaque identities.
- `createRouteHandler` is a left fold (`RouterUtils.Fold`) over the route list. It yields an ordered trace of events plus the final key set. The events are `Register(method, path, chain)`, `Log(text)` for `console.log` and `Warn(text)` for `console.warn`.
- A controller is a function from `(request, response)` to its completion: `Resolved`, `Rejected(e)` or `Threw(e)`.
- The wrapped handler's effect is an `Invocation` record with three parts: the arguments the controller received, the arguments of every `next` call, and how the wrapper's own promise completes.

Files:

- `optional.dfy`: `Option`, for TypeScript properties that may be `undefined`.
- `http_method.dfy`: the five methods, their lower-case literals and ASCII `toUpperCase`.
- `router_utils.dfy`: the registrar, its reference definitions and its properties.
- `with_error_handling.dfy`: the error-forwarding wrapper.

Three behaviours of the code that are easy to misread, and which the model follows exactly:

- **Description line.** A route's description line is logged when the description is *truthy*, not merely present, so an empty description logs nothing.
- **Repeated key.** A key that occurs `k` times in one call produces `k - 1` warnings, one for each repeat. In general the warning count is the number of routes minus the number of distinct keys.
- **Per-call key set.** The key set is fresh on every call, so repeats across calls are not flagged.

## Model

| member | source | states |
|---|---|---|
| HttpMethods.UpperIsToUpperOfName | src/router_utils.ts:43 | The method spelling used in keys and log lines is `toUpperCase` applied to the lower-case method literal. |
| HttpMethods.UpperSpellings | src/router_utils.ts:4 | Upper-casing the five lower-case literals gives GET, POST, PUT, DELETE and PATCH. |
| HttpMethods.UpperInjective | src/router_utils.ts:4 | Two methods have the same upper-case spelling iff they are the same method. |
| RouterUtils.StackOrder | src/router_utils.ts:52-57 | The stack has length `|global| + (auth ? 1 : 0) + |middlewares| + 1`. Global middlewares sit at their own positions, then the auth middleware when present, then the route middlewares in order, and the handler last. |
| RouterUtils.CreateRouteHandler | src/router_utils.ts:29-70 | Returns the same router it was given. Its key set is exactly the keys of this call's routes. |
| RouterUtils.FoldKeys | src/router_utils.ts:40-50 | The walk starts from an empty key set and ends with the keys of all routes. |
| RouterUtils.KeySetIsRouteKeys | src/router_utils.ts:40-50 | A string is in the final key set iff some route of this call has it as `upper(method) + " " + path`. Nothing carries over between calls. |
| RouterUtils.SeenBeforeIsMembership | src/router_utils.ts:46 | When route `i` is processed, its key is in the key set iff an earlier route of the call has the same key. |
| RouterUtils.TraceIsSegments | src/router_utils.ts:42-67 | The trace is the concatenation, in input order, of each route's events. Route `i` emits its duplicate warning iff an earlier route has its key, then its log lines, then its registration. |
| RouterUtils.RegistersEveryRouteInOrder | src/router_utils.ts:42-66 | The Register events correspond one-to-one to the routes, in input order and duplicates included. Each keeps its route's method and path and carries that route's stack. |
| RouterUtils.WarnsExactlyOnRepeats | src/router_utils.ts:43-50 | A route's events start with `Warn("⚠️ Duplicate route detected: " + key)` iff an earlier route of the call has the same key. They contain no other warning. |
| RouterUtils.WarningCount | src/router_utils.ts:46-50 | The number of warnings is the number of routes minus the number of distinct keys. |
| RouterUtils.RouteKeyIdentifiesRoute | src/router_utils.ts:43 | Two routes have the same key iff they have the same method and the same path. |
| RouterUtils.SeenBeforeIsSamePair | src/router_utils.ts:43-47 | A route is flagged as a duplicate iff an earlier route has the same method and path. |
| RouterUtils.NoLogsUnlessEnabled | src/router_utils.ts:37 | When `logRoutes` is absent or false, the trace holds no Log event. |
| RouterUtils.LogCount | src/router_utils.ts:59-64 | With logging on there are `|routes|` route lines plus one line per route whose description is truthy. With logging off there are none. |
| RouterUtils.LogsPrecedeRegistration | src/router_utils.ts:59-66 | With logging on, a route's `"✅ [METHOD] path"` line comes first (after any warning). It is followed by `"   ↳ description"` iff the description is truthy, and its registration comes last. |
| RouterUtils.Defaults | src/router_utils.ts:32-42 | Missing options and missing route middlewares contribute nothing, so the stack is the handler alone. An empty route list yields no events, an empty key set and the same router, whatever the options. |
| RouterUtils.SingleRouteExample | src/_tests_/router_utils.test.ts:14-35 | One GET /hello route with no options gives exactly one registration, whose stack is the handler alone. Nothing is logged. |
| RouterUtils.DuplicateExample | src/_tests_/router_utils.test.ts:93-111 | The same GET /dup route given twice registers twice. It warns once, with "⚠️ Duplicate route detected: GET /dup", between the two registrations. |
| RouterUtils.LoggingExample | src/_tests_/router_utils.test.ts:68-91 | With `logRoutes: true`, GET /logtest logs "✅ [GET] /logtest" and then "   ↳ Logging test route" before registering. |
| ErrorHandling.Handle | src/with_error_handling.ts:7-15 | The controller is called once, with the same request and response. `next` is not called on success. On failure `next` is called once, with the error unchanged. The wrapper itself always resolves. |
| ErrorHandling.WithErrorHandling | src/with_error_handling.ts:6-16 | Every invocation of the returned handler calls the controller with its own request and response. It always resolves. It leaves `next` uncalled when the controller succeeds, and calls `next` once with the controller's error when it fails. |
| ErrorHandling.ForwardsExactlyFailures | src/with_error_handling.ts:8-14 | `next` is never called iff the controller succeeds. It is called exactly once iff the controller fails, and every forwarded value is the controller's error. |
| ErrorHandling.RejectAndThrowAlike | src/with_error_handling.ts:8-13 | A rejected promise and a synchronous throw with the same error have the same effect. |

## Left out

- What `router[method](path, ...stack)` does inside Express is not modelled: request matching, dispatch and base-path mounting belong to Express. Registration is only an emitted event.
- RouterUtils.RegistersEveryRouteInOrder: assumes `router[method](path, ...stack)` never throws. If Express rejected a registration, the `forEach` would stop, later routes would not be registered and no router would be returned. The same assumption underlies `reg.router == router` in RouterUtils.CreateRouteHandler.
- Console output is not performed. `console.log` and `console.warn` become Log and Warn events in the trace.
- Promise scheduling is not modelled. Only how the controller's promise settles matters to `withErrorHandling`.
- ErrorHandling.Handle: assumes the controller's promise always settles. A controller that never settles leaves the wrapper pending, so `completion == Resolved` holds only for controllers that finish.
- ErrorHandling.Handle: assumes `next` returns normally. If `next` threw inside the `catch`, the wrapper's promise would reject; Express's `next` does not throw, so that path is not modelled.
- TypeScript generics (`TReq`) and the `as unknown as RequestHandler` cast are left out: they have no run-time effect.
- Values outside the TypeScript types are not modelled: a `null` options field, or a method string outside the five literals.
- `toUpperCase` is modelled on ASCII letters only, which covers every method literal.
- Test scaffolding (supertest, jest spies) and the build/release configuration files are left out: they contain no logic of the helpers.
