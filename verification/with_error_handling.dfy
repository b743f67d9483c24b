/** `withErrorHandling`: wraps an async controller so that a failure is
    handed to Express's `next` instead of escaping. The controller's promise
    is modelled by how it completes; the wrapper's effect is the list of
    arguments it passes to `next`. */
module ErrorHandling {

  /** An Express request, known only by its identity. */
  datatype Request = Request(id: nat)

  /** An Express response, known only by its identity. */
  datatype Response = Response(id: nat)

  /** How a call completes: its promise resolves, its promise rejects with a
      value, or the function throws a value before returning a promise. */
  datatype Completion<+E> = Resolved | Rejected(error: E) | Threw(error: E) {
    predicate Failed() { !Resolved? }
  }

  /** A controller: `(req, res) => Promise<void>`. */
  type Controller<!E> = (Request, Response) -> Completion<E>

  /** What one invocation of the wrapped handler does: the arguments the
      controller was called with, the arguments of every `next` call, in
      order, and how the wrapper's own promise completes. */
  datatype Invocation<+E> = Invocation(
    controllerCalls: seq<(Request, Response)>,
    nextCalls: seq<E>,
    completion: Completion<E>)

  /** The body of the wrapped handler: `try { await fn(req, res) } catch (err) { next(err) }`.
      The controller is called once with the same request and response;
      `next` is called with the error, unchanged, exactly when the controller
      fails, and never otherwise; the wrapper itself always resolves. */
  function Handle<E>(fn: Controller<E>, req: Request, res: Response): (inv: Invocation<E>)
    ensures inv.controllerCalls == [(req, res)]
    ensures fn(req, res).Resolved? ==> inv.nextCalls == []
    ensures fn(req, res).Failed() ==> inv.nextCalls == [fn(req, res).error]
    ensures inv.completion == Resolved
  {
    var outcome := fn(req, res);
    match outcome
    case Resolved => Invocation([(req, res)], [], Resolved)
    case Rejected(err) => Invocation([(req, res)], [err], Resolved)
    case Threw(err) => Invocation([(req, res)], [err], Resolved)
  }

  /** `withErrorHandling(fn)`: the three-argument request handler whose every
      invocation calls `fn` with its own request and response, always
      resolves, leaves `next` alone when `fn` succeeds and passes `fn`'s
      error to `next` when it fails. */
  function WithErrorHandling<E>(fn: Controller<E>): (handler: (Request, Response) -> Invocation<E>)
    ensures forall req, res :: handler(req, res).controllerCalls == [(req, res)]
    ensures forall req, res :: handler(req, res).completion == Resolved
    ensures forall req, res :: |handler(req, res).nextCalls| <= 1
    ensures forall req, res :: fn(req, res).Resolved? ==> handler(req, res).nextCalls == []
    ensures forall req, res :: fn(req, res).Failed() ==> handler(req, res).nextCalls == [fn(req, res).error]
  {
    (req, res) => Handle(fn, req, res)
  }

  /** Exactly one of the two outcomes happens: no `next` call after success,
      or a single `next` call carrying the controller's error. No error is
      swallowed and none is forwarded twice. */
  lemma ForwardsExactlyFailures<E>(fn: Controller<E>, req: Request, res: Response)
    ensures var inv := Handle(fn, req, res);
            && (inv.nextCalls == [] <==> fn(req, res).Resolved?)
            && (|inv.nextCalls| == 1 <==> fn(req, res).Failed())
            && (forall e :: e in inv.nextCalls ==> fn(req, res).Failed() && e == fn(req, res).error)
  {
  }

  /** A rejected promise and a synchronous throw are handled alike. */
  lemma RejectAndThrowAlike<E>(f: Controller<E>, g: Controller<E>, req: Request, res: Response, err: E)
    requires f(req, res) == Rejected(err)
    requires g(req, res) == Threw(err)
    ensures Handle(f, req, res) == Handle(g, req, res)
  {
  }
}
