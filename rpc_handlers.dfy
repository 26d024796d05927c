/**
 * The RPC server's dispatch table: a builder maps request classes to
 * handlers, `build` freezes a copy, and `apply` runs the handler registered
 * for the request's own class or reports the failure to the callback.
 */
module RpcHandlers {

  /** A request as `apply` receives it: null, or a message of some runtime class. */
  datatype Request<Cls, D> = NullRequest | Message(requestClass: Cls, data: D)

  /** Why the request could not be dispatched: the failed `checkNotNull`. */
  datatype DispatchError<Cls> = RequestIsNull | UnknownRequestClass(requestClass: Cls)

  /** What `apply` does: run one handler with the request and the callback, or pass an error to the callback. */
  datatype Dispatch<Cls, D, H> = RunHandler(handler: H, request: D) | OnException(error: DispatchError<Cls>)

  /** The built, immutable table. */
  datatype RequestHandlers<Cls, H> = RequestHandlers(handlers: map<Cls, H>)

  /** `apply`: a null request or a class without a handler goes to `onException`; otherwise the class's handler runs. */
  function Apply<Cls, D, H>(table: RequestHandlers<Cls, H>, request: Request<Cls, D>): (r: Dispatch<Cls, D, H>)
    ensures request.NullRequest? ==> r == OnException(RequestIsNull)
    ensures request.Message? && request.requestClass !in table.handlers ==> r == OnException(UnknownRequestClass(request.requestClass))
    ensures r.RunHandler? <==> request.Message? && request.requestClass in table.handlers
    ensures r.RunHandler? ==> r.handler == table.handlers[request.requestClass] && r.request == request.data
  {
    match request
    case NullRequest => OnException(RequestIsNull)
    case Message(cls, data) =>
      if cls in table.handlers then RunHandler(table.handlers[cls], data)
      else OnException(UnknownRequestClass(cls))
  }

  /** Registering a class again replaces its handler, and leaves every other class's dispatch as it was. */
  lemma PutReplaces<Cls, D, H>(handlers: map<Cls, H>, cls: Cls, first: H, second: H, data: D, other: Request<Cls, D>)
    requires other.Message? ==> other.requestClass != cls
    ensures Apply(RequestHandlers(handlers[cls := first][cls := second]), Message(cls, data)) == RunHandler(second, data)
    ensures Apply(RequestHandlers(handlers[cls := second]), other) == Apply(RequestHandlers(handlers), other)
  {
  }

  class Builder<Cls(==), H> {
    var handlers: map<Cls, H>

    constructor ()
      ensures handlers == map[]
    {
      handlers := map[];
    }

    /** `put`: the class now maps to this handler, replacing any earlier one. */
    method Put(requestClass: Cls, handler: H)
      modifies this
      ensures handlers == old(handlers)[requestClass := handler]
    {
      handlers := handlers[requestClass := handler];
    }

    /** `build`: a table holding a copy of the current mappings. */
    method Build() returns (table: RequestHandlers<Cls, H>)
      ensures table.handlers == handlers
    {
      table := RequestHandlers(handlers);
    }
  }

  /** A table built before a later `put` keeps dispatching as it did when it was built. */
  method BuildIsSnapshot<Cls(==), D, H>(builder: Builder<Cls, H>, cls: Cls, handler: H, request: Request<Cls, D>) returns (table: RequestHandlers<Cls, H>)
    modifies builder
    ensures table.handlers == old(builder.handlers)
    ensures Apply(table, request) == Apply(RequestHandlers(old(builder.handlers)), request)
    ensures builder.handlers == old(builder.handlers)[cls := handler]
  {
    table := builder.Build();
    builder.Put(cls, handler);
  }
}
