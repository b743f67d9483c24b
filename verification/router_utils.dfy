/** The route registrar `createRouteHandler`: it walks an ordered list of route
    configs, composes each route's middleware stack, flags duplicate
    "METHOD path" keys, optionally logs, and registers every route on the
    router. Console output and the router's registration calls are modelled
    as an ordered trace of events. */
module RouterUtils {
  import opened Optional
  import opened HttpMethods

  /** An Express request handler or middleware, known only by its identity. */
  datatype Handler = Handler(id: nat)

  /** An Express router, known only by its identity. */
  datatype Router = Router(id: nat)

  /** One route config; `middlewares` and `description` may be undefined. */
  datatype RouteConfig = RouteConfig(
    verb: HttpMethod,
    path: string,
    handler: Handler,
    middlewares: Option<seq<Handler>>,
    description: Option<string>)

  /** The optional registration settings; every field may be undefined. */
  datatype Options = Options(
    authMiddleware: Option<Handler>,
    globalMiddlewares: Option<seq<Handler>>,
    logRoutes: Option<bool>)

  /** The options object used when the caller passes none (`options = {}`). */
  const NoOptions: Options := Options(None, None, None)

  /** An observable effect of registration, in the order it happens:
      `router[method](path, ...chain)`, `console.log(text)` or `console.warn(text)`. */
  datatype Event =
    | Register(verb: HttpMethod, path: string, chain: seq<Handler>)
    | Log(text: string)
    | Warn(text: string)

  /** Running state of the walk: the events so far and the set of keys seen. */
  datatype Walk = Walk(events: seq<Event>, keys: set<string>)

  /** What a call returns (the router) together with what it did. */
  datatype Registration = Registration(router: Router, events: seq<Event>, keys: set<string>)

  // ---------------------------------------------------------------------------
  // Per-route pieces
  // ---------------------------------------------------------------------------

  /** The duplicate-detection key: upper-cased method, one space, path. */
  function RouteKey(r: RouteConfig): string {
    Upper(r.verb) + " " + r.path
  }

  /** The console.warn text for a repeated key (U+26A0 U+FE0F is the warning sign). */
  function DuplicateText(key: string): string {
    "\U{26A0}\U{FE0F} Duplicate route detected: " + key
  }

  /** The first log line of a route: a check mark, the method in brackets, the path. */
  function RouteLine(r: RouteConfig): string {
    "\U{2705} [" + Upper(r.verb) + "] " + r.path
  }

  /** The indented second log line carrying the route's description. */
  function DescriptionLine(description: string): string {
    "   \U{21B3} " + description
  }

  /** JavaScript truthiness of an optional string: present and non-empty. */
  predicate Truthy(d: Option<string>) {
    d.Some? && d.value != ""
  }

  /** `logRoutes`, defaulting to false. */
  predicate LogEnabled(o: Options) {
    o.logRoutes.GetOr(false)
  }

  /** The auth middleware's contribution to a stack: itself when present. */
  function AuthPart(o: Options): seq<Handler> {
    match o.authMiddleware
    case Some(a) => [a]
    case None => []
  }

  /** The middleware stack of one route: global middlewares, the auth
      middleware if any, the route's own middlewares, then the handler. */
  function Stack(o: Options, r: RouteConfig): seq<Handler> {
    o.globalMiddlewares.GetOr([]) + AuthPart(o) + r.middlewares.GetOr([]) + [r.handler]
  }

  /** The log lines of one route (none unless logging is enabled). */
  function RouteLogs(o: Options, r: RouteConfig): seq<Event> {
    if !LogEnabled(o) then []
    else [Log(RouteLine(r))] + (if Truthy(r.description) then [Log(DescriptionLine(r.description.value))] else [])
  }

  /** The events of one route, given whether its key was seen before:
      the warning (if a duplicate), the log lines, then the registration. */
  function RouteEvents(o: Options, r: RouteConfig, duplicate: bool): seq<Event> {
    DuplicateWarning(r, duplicate) + RouteLogs(o, r) + [Register(r.verb, r.path, Stack(o, r))]
  }

  /** The duplicate warning of one route, if it is a duplicate. */
  function DuplicateWarning(r: RouteConfig, duplicate: bool): seq<Event> {
    if duplicate then [Warn(DuplicateText(RouteKey(r)))] else []
  }

  /** One iteration of the `forEach`: look the key up, warn or remember it,
      and emit the route's events. */
  function Step(o: Options, r: RouteConfig, w: Walk): Walk {
    var key := RouteKey(r);
    var duplicate := key in w.keys;
    Walk(w.events + RouteEvents(o, r, duplicate),
         if duplicate then w.keys else w.keys + {key})
  }

  // ---------------------------------------------------------------------------
  // Reference definitions, independent of the walk
  // ---------------------------------------------------------------------------

  /** The key of every route, in input order. */
  function Keys(routes: seq<RouteConfig>): seq<string> {
    if |routes| == 0 then [] else Keys(routes[..|routes| - 1]) + [RouteKey(routes[|routes| - 1])]
  }

  /** The keys of all the given routes. */
  function KeysOf(routes: seq<RouteConfig>): set<string> {
    if |routes| == 0 then {} else KeysOf(routes[..|routes| - 1]) + {RouteKey(routes[|routes| - 1])}
  }

  /** Some route before position `i` has the same key as route `i`. */
  predicate SeenBefore(routes: seq<RouteConfig>, i: int)
    requires 0 <= i < |routes|
  {
    exists j :: 0 <= j < i && RouteKey(routes[j]) == RouteKey(routes[i])
  }

  /** Some route before position `i` has the same method and the same path. */
  predicate SamePairBefore(routes: seq<RouteConfig>, i: int)
    requires 0 <= i < |routes|
  {
    exists j :: 0 <= j < i && routes[j].verb == routes[i].verb && routes[j].path == routes[i].path
  }

  /** The events route `i` is expected to produce within the whole call. */
  function Segment(o: Options, routes: seq<RouteConfig>, i: int): seq<Event>
    requires 0 <= i < |routes|
  {
    RouteEvents(o, routes[i], SeenBefore(routes, i))
  }

  /** The expected events of every route, in input order. */
  function Segments(o: Options, routes: seq<RouteConfig>): seq<seq<Event>> {
    seq(|routes|, i requires 0 <= i < |routes| => Segment(o, routes, i))
  }

  /** Concatenation of a sequence of event lists. */
  function Flatten(ss: seq<seq<Event>>): seq<Event> {
    if |ss| == 0 then [] else Flatten(ss[..|ss| - 1]) + ss[|ss| - 1]
  }

  /** The three kinds of event. */
  datatype Kind = Registers | Logs | Warns

  function KindOf(e: Event): Kind {
    match e
    case Register(_, _, _) => Registers
    case Log(_) => Logs
    case Warn(_) => Warns
  }

  /** The events of `evs` of kind `k`, in order. */
  function Only(evs: seq<Event>, k: Kind): seq<Event> {
    if |evs| == 0 then []
    else Only(evs[..|evs| - 1], k) + (if KindOf(evs[|evs| - 1]) == k then [evs[|evs| - 1]] else [])
  }

  /** The Register event each route is expected to produce. */
  function Expected(o: Options, r: RouteConfig): Event {
    Register(r.verb, r.path, Stack(o, r))
  }

  /** The Register event of every route, in input order. */
  function ExpectedAll(o: Options, routes: seq<RouteConfig>): seq<Event> {
    if |routes| == 0 then [] else ExpectedAll(o, routes[..|routes| - 1]) + [Expected(o, routes[|routes| - 1])]
  }

  /** How many routes have a truthy description. */
  function DescribedCount(routes: seq<RouteConfig>): nat {
    if |routes| == 0 then 0
    else DescribedCount(routes[..|routes| - 1]) + (if Truthy(routes[|routes| - 1].description) then 1 else 0)
  }

  // ---------------------------------------------------------------------------
  // The registrar
  // ---------------------------------------------------------------------------

  /** The `forEach` over `routes`, starting from an empty trace and an empty
      key set. */
  function Fold(o: Options, routes: seq<RouteConfig>): Walk {
    if |routes| == 0 then Walk([], {})
    else Step(o, routes[|routes| - 1], Fold(o, routes[..|routes| - 1]))
  }

  /** `createRouteHandler(router, routes, options)`: returns the router it was
      given; the key set lives for this one call only. */
  function CreateRouteHandler(router: Router, routes: seq<RouteConfig>, o: Options): (reg: Registration)
    ensures reg.router == router
    ensures reg.keys == KeysOf(routes)
  {
    var w := Fold(o, routes);
    FoldKeys(o, routes);
    Registration(router, w.events, w.keys)
  }

  // ---------------------------------------------------------------------------
  // Helper lemmas
  // ---------------------------------------------------------------------------

  /** A key is in `KeysOf(routes)` exactly when it occurs in `Keys(routes)`. */
  lemma {:induction false} InKeysOf(routes: seq<RouteConfig>, key: string)
    ensures key in KeysOf(routes) <==> key in Keys(routes)
  {
    if |routes| > 0 {
      InKeysOf(routes[..|routes| - 1], key);
    }
  }

  /** `Keys(routes)` lists the key of every route, position by position. */
  lemma {:induction false} KeysAt(routes: seq<RouteConfig>)
    ensures |Keys(routes)| == |routes|
    ensures forall i :: 0 <= i < |routes| ==> Keys(routes)[i] == RouteKey(routes[i])
  {
    if |routes| > 0 {
      var n := |routes| - 1;
      KeysAt(routes[..n]);
      forall i | 0 <= i < n
        ensures Keys(routes)[i] == RouteKey(routes[i])
      {
        assert routes[..n][i] == routes[i];
      }
    }
  }

  /** Adding an element grows a set by one exactly when it is new. */
  lemma CardAddOne(a: set<string>, x: string)
    ensures |a + {x}| == |a| + (if x in a then 0 else 1)
  {
    if x in a {
      assert a + {x} == a;
    }
  }

  /** The walk over a non-empty list is the walk over all but its last
      route, followed by one step for the last route. */
  lemma FoldSnoc(o: Options, routes: seq<RouteConfig>)
    requires |routes| > 0
    ensures var w0 := Fold(o, routes[..|routes| - 1]);
            var last := routes[|routes| - 1];
            && Fold(o, routes).events == w0.events + RouteEvents(o, last, RouteKey(last) in w0.keys)
            && Fold(o, routes).keys == w0.keys + {RouteKey(last)}
  {
  }

  /** The key set after the walk is exactly the keys of all routes: it
      starts empty and every route's key joins it. */
  lemma {:induction false} FoldKeys(o: Options, routes: seq<RouteConfig>)
    ensures Fold(o, routes).keys == KeysOf(routes)
  {
    if |routes| > 0 {
      var n := |routes| - 1;
      FoldSnoc(o, routes);
      FoldKeys(o, routes[..n]);
    }
  }

  /** Filtering distributes over concatenation. */
  lemma {:induction false} OnlyAppend(a: seq<Event>, b: seq<Event>, k: Kind)
    ensures Only(a + b, k) == Only(a, k) + Only(b, k)
  {
    if |b| == 0 {
      assert a + b == a;
    } else {
      var b' := b[..|b| - 1];
      assert (a + b)[..|a + b| - 1] == a + b';
      OnlyAppend(a, b', k);
    }
  }

  /** Filtering a one-event list. */
  lemma OnlySingle(e: Event, k: Kind)
    ensures Only([e], k) == if KindOf(e) == k then [e] else []
  {
    assert [e][..0] == [];
  }

  /** The warning part of a route's events is warnings only. */
  lemma DuplicateWarningOnly(r: RouteConfig, duplicate: bool, k: Kind)
    ensures Only(DuplicateWarning(r, duplicate), k) == if k == Warns then DuplicateWarning(r, duplicate) else []
  {
    if duplicate {
      OnlySingle(Warn(DuplicateText(RouteKey(r))), k);
    }
  }

  /** The log part of a route's events is log lines only. */
  lemma RouteLogsOnly(o: Options, r: RouteConfig, k: Kind)
    ensures Only(RouteLogs(o, r), k) == if k == Logs then RouteLogs(o, r) else []
  {
    if LogEnabled(o) {
      var first := Log(RouteLine(r));
      OnlySingle(first, k);
      if Truthy(r.description) {
        var second := Log(DescriptionLine(r.description.value));
        OnlySingle(second, k);
        OnlyAppend([first], [second], k);
        assert RouteLogs(o, r) == [first] + [second];
      } else {
        assert RouteLogs(o, r) == [first];
      }
    }
  }

  /** Filtering one route's events filters its warning, its log lines and
      its registration separately. */
  lemma RouteEventsOnly(o: Options, r: RouteConfig, duplicate: bool, k: Kind)
    ensures Only(RouteEvents(o, r, duplicate), k)
            == Only(DuplicateWarning(r, duplicate), k) + Only(RouteLogs(o, r), k) + Only([Expected(o, r)], k)
  {
    var w, l, g := DuplicateWarning(r, duplicate), RouteLogs(o, r), [Expected(o, r)];
    assert RouteEvents(o, r, duplicate) == (w + l) + g;
    OnlyAppend(w + l, g, k);
    OnlyAppend(w, l, k);
  }

  /** Filtering a walk by kind grows by the filtered events of its last route. */
  lemma OnlySnoc(o: Options, routes: seq<RouteConfig>, k: Kind)
    requires |routes| > 0
    ensures var w0 := Fold(o, routes[..|routes| - 1]);
            var last := routes[|routes| - 1];
            Only(Fold(o, routes).events, k)
            == Only(w0.events, k) + Only(RouteEvents(o, last, RouteKey(last) in w0.keys), k)
  {
    var n := |routes| - 1;
    var w0 := Fold(o, routes[..n]);
    FoldSnoc(o, routes);
    OnlyAppend(w0.events, RouteEvents(o, routes[n], RouteKey(routes[n]) in w0.keys), k);
  }

  /** The last route adds a warning to the walk exactly when its key was already seen. */
  lemma WarnsSnoc(o: Options, routes: seq<RouteConfig>)
    requires |routes| > 0
    ensures var w0 := Fold(o, routes[..|routes| - 1]);
            |Only(Fold(o, routes).events, Warns)|
            == |Only(w0.events, Warns)| + if RouteKey(routes[|routes| - 1]) in w0.keys then 1 else 0
  {
    var n := |routes| - 1;
    var dup := RouteKey(routes[n]) in Fold(o, routes[..n]).keys;
    OnlySnoc(o, routes, Warns);
    RouteEventsOnly(o, routes[n], dup, Warns);
    DuplicateWarningOnly(routes[n], dup, Warns);
    RouteLogsOnly(o, routes[n], Warns);
    OnlySingle(Expected(o, routes[n]), Warns);
  }

  /** The last route adds a key exactly when its key is new. */
  lemma KeysOfSnocCard(routes: seq<RouteConfig>)
    requires |routes| > 0
    ensures var prefix, key := routes[..|routes| - 1], RouteKey(routes[|routes| - 1]);
            |KeysOf(routes)| == |KeysOf(prefix)| + if key in KeysOf(prefix) then 0 else 1
  {
    CardAddOne(KeysOf(routes[..|routes| - 1]), RouteKey(routes[|routes| - 1]));
  }

  /** The last route adds its own log lines to the walk. */
  lemma LogsSnoc(o: Options, routes: seq<RouteConfig>)
    requires |routes| > 0
    ensures |Only(Fold(o, routes).events, Logs)|
            == |Only(Fold(o, routes[..|routes| - 1]).events, Logs)| + |RouteLogs(o, routes[|routes| - 1])|
  {
    var n := |routes| - 1;
    var dup := RouteKey(routes[n]) in Fold(o, routes[..n]).keys;
    OnlySnoc(o, routes, Logs);
    RouteEventsOnly(o, routes[n], dup, Logs);
    DuplicateWarningOnly(routes[n], dup, Logs);
    RouteLogsOnly(o, routes[n], Logs);
    OnlySingle(Expected(o, routes[n]), Logs);
  }

  /** The registrations of a walk grow by exactly the last route's one. */
  lemma RegistersSnoc(o: Options, routes: seq<RouteConfig>)
    requires |routes| > 0
    ensures Only(Fold(o, routes).events, Registers)
            == Only(Fold(o, routes[..|routes| - 1]).events, Registers) + [Expected(o, routes[|routes| - 1])]
  {
    var n := |routes| - 1;
    var dup := RouteKey(routes[n]) in Fold(o, routes[..n]).keys;
    OnlySnoc(o, routes, Registers);
    RouteEventsOnly(o, routes[n], dup, Registers);
    DuplicateWarningOnly(routes[n], dup, Registers);
    RouteLogsOnly(o, routes[n], Registers);
    OnlySingle(Expected(o, routes[n]), Registers);
  }

  /** A prefix of the routes sees the same earlier keys as the whole list. */
  lemma SegmentsSnoc(o: Options, routes: seq<RouteConfig>)
    requires |routes| > 0
    ensures Segments(o, routes)
            == Segments(o, routes[..|routes| - 1]) + [Segment(o, routes, |routes| - 1)]
  {
    var prefix := routes[..|routes| - 1];
    forall i | 0 <= i < |prefix|
      ensures Segment(o, prefix, i) == Segment(o, routes, i)
    {
      assert SeenBefore(prefix, i) == SeenBefore(routes, i) by {
        assert forall j :: 0 <= j < i ==> prefix[j] == routes[j];
      }
    }
  }

  /** A key was seen among the earlier routes exactly when it is in their key set. */
  lemma SeenBeforeIsMembership(routes: seq<RouteConfig>, i: int)
    requires 0 <= i < |routes|
    ensures SeenBefore(routes, i) <==> RouteKey(routes[i]) in KeysOf(routes[..i])
  {
    var prefix, key := routes[..i], RouteKey(routes[i]);
    InKeysOf(prefix, key);
    KeysAt(prefix);
    if key in Keys(prefix) {
      var j :| 0 <= j < i && Keys(prefix)[j] == key;
      assert prefix[j] == routes[j];
    }
    if SeenBefore(routes, i) {
      var j :| 0 <= j < i && RouteKey(routes[j]) == key;
      assert Keys(prefix)[j] == key;
    }
  }

  // ---------------------------------------------------------------------------
  // Properties of the registrar
  // ---------------------------------------------------------------------------

  /** The trace is each route's events in input order, where route `i` warns
      exactly when an earlier route of the same call has its key. */
  lemma {:induction false} TraceIsSegments(o: Options, routes: seq<RouteConfig>)
    ensures Fold(o, routes).events == Flatten(Segments(o, routes))
  {
    if |routes| > 0 {
      var n := |routes| - 1;
      var prefix := routes[..n];
      TraceIsSegments(o, prefix);
      FoldSnoc(o, routes);
      FoldKeys(o, prefix);
      SegmentsSnoc(o, routes);
      SeenBeforeIsMembership(routes, n);
      var ss := Segments(o, routes);
      assert ss[..|ss| - 1] == Segments(o, prefix);
    }
  }

  /** The registrations of a walk are one per route, in input order. */
  lemma {:induction false} RegistrationsOfFold(o: Options, routes: seq<RouteConfig>)
    ensures Only(Fold(o, routes).events, Registers) == ExpectedAll(o, routes)
  {
    if |routes| > 0 {
      RegistrationsOfFold(o, routes[..|routes| - 1]);
      RegistersSnoc(o, routes);
    }
  }

  /** The expected registrations, position by position. */
  lemma {:induction false} ExpectedAllAt(o: Options, routes: seq<RouteConfig>)
    ensures |ExpectedAll(o, routes)| == |routes|
    ensures forall i :: 0 <= i < |routes| ==> ExpectedAll(o, routes)[i] == Expected(o, routes[i])
  {
    if |routes| > 0 {
      var n := |routes| - 1;
      ExpectedAllAt(o, routes[..n]);
      forall i | 0 <= i < n
        ensures ExpectedAll(o, routes)[i] == Expected(o, routes[i])
      {
        assert routes[..n][i] == routes[i];
      }
    }
  }

  /** Every route is registered exactly once, in input order, with its own
      method, path and stack; duplicates are registered too. */
  lemma RegistersEveryRouteInOrder(o: Options, routes: seq<RouteConfig>)
    ensures var regs := Only(Fold(o, routes).events, Registers);
            && |regs| == |routes|
            && forall i :: 0 <= i < |routes| ==> regs[i] == Expected(o, routes[i])
  {
    RegistrationsOfFold(o, routes);
    ExpectedAllAt(o, routes);
  }

  /** The key set a call ends with holds exactly the keys of its routes:
      it starts empty, and nothing from an earlier call carries over. */
  lemma KeySetIsRouteKeys(router: Router, routes: seq<RouteConfig>, o: Options, key: string)
    ensures key in CreateRouteHandler(router, routes, o).keys
            <==> exists i :: 0 <= i < |routes| && RouteKey(routes[i]) == key
  {
    InKeysOf(routes, key);
    KeysAt(routes);
    if key in Keys(routes) {
      var i :| 0 <= i < |Keys(routes)| && Keys(routes)[i] == key;
      assert RouteKey(routes[i]) == key;
    }
    if i :| 0 <= i < |routes| && RouteKey(routes[i]) == key {
      assert Keys(routes)[i] == key;
    }
  }

  /** Route `i`'s events open with a duplicate warning carrying its key exactly
      when an earlier route of the same call has that key, and hold no other
      warning. */
  lemma WarnsExactlyOnRepeats(o: Options, routes: seq<RouteConfig>, i: int)
    requires 0 <= i < |routes|
    ensures var seg := Segment(o, routes, i);
            && (SeenBefore(routes, i) <==> seg[0] == Warn(DuplicateText(RouteKey(routes[i]))))
            && (forall k :: 0 < k < |seg| ==> !seg[k].Warn?)
  {
  }

  /** Every route produces either a warning or a new key, so the number of
      warnings is the number of routes minus the number of distinct keys. */
  lemma {:induction false} WarningCount(o: Options, routes: seq<RouteConfig>)
    ensures |Only(Fold(o, routes).events, Warns)| == |routes| - |KeysOf(routes)|
  {
    if |routes| > 0 {
      var prefix := routes[..|routes| - 1];
      WarningCount(o, prefix);
      FoldKeys(o, prefix);
      WarnsSnoc(o, routes);
      KeysOfSnocCard(routes);
    }
  }

  /** Two routes share a key exactly when they share method and path, so
      duplicate detection flags precisely repeated (method, path) pairs. */
  lemma RouteKeyIdentifiesRoute(r1: RouteConfig, r2: RouteConfig)
    ensures RouteKey(r1) == RouteKey(r2) <==> r1.verb == r2.verb && r1.path == r2.path
  {
    UpperIsCapitals(r1.verb);
    UpperIsCapitals(r2.verb);
    UpperInjective(r1.verb, r2.verb);
    if RouteKey(r1) == RouteKey(r2) {
      SplitAtFirstSpace(Upper(r1.verb), r1.path, Upper(r2.verb), r2.path);
    }
  }

  /** A space-free word followed by a space and a rest is split uniquely. */
  lemma SplitAtFirstSpace(u1: string, p1: string, u2: string, p2: string)
    requires ' ' !in u1 && ' ' !in u2
    requires u1 + " " + p1 == u2 + " " + p2
    ensures u1 == u2 && p1 == p2
  {
    var k := u1 + " " + p1;
    FirstSpace(u1, p1);
    FirstSpace(u2, p2);
    assert |u1| == |u2|;
    assert u1 == k[..|u1|] == u2;
    assert p1 == k[|u1| + 1..] == p2;
  }

  /** In `u + " " + p` with `u` space-free, the first space is at `|u|`. */
  lemma FirstSpace(u: string, p: string)
    requires ' ' !in u
    ensures (u + " " + p)[|u|] == ' '
    ensures forall i :: 0 <= i < |u| ==> (u + " " + p)[i] != ' '
  {
    forall i | 0 <= i < |u|
      ensures (u + " " + p)[i] != ' '
    {
      assert (u + " " + p)[i] == u[i];
    }
  }

  /** A warning for route `i` means an earlier route has the same method and path. */
  lemma SeenBeforeIsSamePair(routes: seq<RouteConfig>, i: int)
    requires 0 <= i < |routes|
    ensures SeenBefore(routes, i) <==> SamePairBefore(routes, i)
  {
    forall j | 0 <= j < i
      ensures RouteKey(routes[j]) == RouteKey(routes[i])
              <==> routes[j].verb == routes[i].verb && routes[j].path == routes[i].path
    {
      RouteKeyIdentifiesRoute(routes[j], routes[i]);
    }
  }

  /** The stack order is fixed: every global middleware at its own position,
      then the auth middleware when present, then every route middleware,
      and the handler last; nothing else is in the stack. */
  lemma StackOrder(o: Options, r: RouteConfig)
    ensures var chain := Stack(o, r);
            var g := o.globalMiddlewares.GetOr([]);
            var a := if o.authMiddleware.Some? then 1 else 0;
            var m := r.middlewares.GetOr([]);
            && |chain| == |g| + a + |m| + 1
            && (forall i :: 0 <= i < |g| ==> chain[i] == g[i])
            && (o.authMiddleware.Some? ==> chain[|g|] == o.authMiddleware.value)
            && (forall j :: 0 <= j < |m| ==> chain[|g| + a + j] == m[j])
            && chain[|chain| - 1] == r.handler
  {
  }

  /** Without `logRoutes: true` nothing is logged. */
  lemma {:induction false} NoLogsUnlessEnabled(o: Options, routes: seq<RouteConfig>)
    requires !LogEnabled(o)
    ensures forall e :: e in Fold(o, routes).events ==> !e.Log?
  {
    if |routes| > 0 {
      var n := |routes| - 1;
      FoldSnoc(o, routes);
      NoLogsUnlessEnabled(o, routes[..n]);
    }
  }

  /** With `logRoutes: true` each route logs one line, plus one per truthy
      description; without it, none. */
  lemma {:induction false} LogCount(o: Options, routes: seq<RouteConfig>)
    ensures |Only(Fold(o, routes).events, Logs)|
            == if LogEnabled(o) then |routes| + DescribedCount(routes) else 0
  {
    if |routes| > 0 {
      LogCount(o, routes[..|routes| - 1]);
      LogsSnoc(o, routes);
    }
  }

  /** A logged route's lines come before its registration: its route line,
      then its description line iff the description is truthy. */
  lemma LogsPrecedeRegistration(o: Options, r: RouteConfig, duplicate: bool)
    requires LogEnabled(o)
    ensures var evs := RouteEvents(o, r, duplicate);
            var d := if duplicate then 1 else 0;
            && evs[d] == Log(RouteLine(r))
            && (Truthy(r.description) ==> evs[d + 1] == Log(DescriptionLine(r.description.value)))
            && |evs| == d + (if Truthy(r.description) then 2 else 1) + 1
            && evs[|evs| - 1] == Expected(o, r)
  {
  }

  /** Missing options and missing route middlewares contribute nothing:
      the stack is the handler alone, and no route list means no events,
      whatever the options. */
  lemma Defaults(router: Router, r: RouteConfig, o: Options)
    requires r.middlewares == None
    ensures Stack(NoOptions, r) == [r.handler]
    ensures CreateRouteHandler(router, [], o) == Registration(router, [], {})
  {
  }

  /** The GET /hello example: one route, no options, one registration of the
      handler alone, and nothing logged. */
  lemma SingleRouteExample(router: Router, h: Handler)
    ensures CreateRouteHandler(router, [RouteConfig(Get, "/hello", h, None, None)], NoOptions).events
            == [Register(Get, "/hello", [h])]
  {
    var r := RouteConfig(Get, "/hello", h, None, None);
    assert [r][..0] == [];
    FoldSnoc(NoOptions, [r]);
    assert Stack(NoOptions, r) == [h];
  }

  /** The duplicate example: the same GET /dup route twice registers twice
      and warns once, before the second registration. */
  lemma DuplicateExample(router: Router, h: Handler)
    ensures var r := RouteConfig(Get, "/dup", h, None, None);
            CreateRouteHandler(router, [r, r], NoOptions).events
            == [Register(Get, "/dup", [h]),
                Warn("\U{26A0}\U{FE0F} Duplicate route detected: GET /dup"),
                Register(Get, "/dup", [h])]
  {
    var r := RouteConfig(Get, "/dup", h, None, None);
    assert [r, r][..1] == [r];
    assert [r][..0] == [];
    FoldSnoc(NoOptions, [r]);
    FoldSnoc(NoOptions, [r, r]);
    assert Stack(NoOptions, r) == [h];
    assert RouteKey(r) == "GET /dup";
    assert DuplicateText(RouteKey(r)) == "\U{26A0}\U{FE0F} Duplicate route detected: GET /dup";
    assert RouteKey(r) in Fold(NoOptions, [r]).keys;
  }

  /** The logging example: GET /logtest with a description logs both lines. */
  lemma LoggingExample(router: Router, h: Handler)
    ensures var r := RouteConfig(Get, "/logtest", h, None, Some("Logging test route"));
            var o := Options(None, None, Some(true));
            CreateRouteHandler(router, [r], o).events
            == [Log("\U{2705} [GET] /logtest"),
                Log("   \U{21B3} Logging test route"),
                Register(Get, "/logtest", [h])]
  {
    var r := RouteConfig(Get, "/logtest", h, None, Some("Logging test route"));
    var o := Options(None, None, Some(true));
    assert [r][..0] == [];
    FoldSnoc(o, [r]);
    assert Fold(o, [r]).events == RouteEvents(o, r, false);
    assert RouteLine(r) == "\U{2705} [GET] /logtest";
    assert LogEnabled(o) && Truthy(r.description);
    assert DescriptionLine(r.description.value) == "   \U{21B3} Logging test route";
    assert RouteLogs(o, r) == [Log(RouteLine(r)), Log(DescriptionLine(r.description.value))];
    assert Stack(o, r) == [h];
  }
}
