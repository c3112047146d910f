/** The parts of Nest.js (and of JavaScript) that the dataloader core touches but
    does not implement: object identities, execution contexts, the dependency
    container, call handlers and thrown exceptions. */
module Nest {

  /** The identity of a JavaScript object (a request, a GraphQL context's `req`,
      a provider instance). Only identity matters, so a natural number stands for it. */
  type Ref = nat

  /** A class used as a DI token: the identity of a loader factory class. */
  type FactoryId = nat

  datatype Option<+T> = None | Some(value: T)

  /** The exceptions the core can throw, as values. */
  datatype Exception =
    | DataloaderException(message: string)     // src/DataloaderException.ts
    | Error(message: string)                   // a plain JavaScript `Error`
    | AssertionError(message: string)          // thrown by `node:assert/strict`
    | UnknownElementException(token: FactoryId) // `ModuleRef.get` found no provider

  /** A computation that either returns a value or throws. */
  datatype Result<+T> = Ok(value: T) | Err(error: Exception)

  /** A Nest execution context as the core sees it: what `getType()` answers and
      the object the matching transport accessor projects out of it
      (`GqlExecutionContext.create(ctx).getContext().req` for GraphQL,
      `switchToHttp().getRequest()` for HTTP). Another transport carries its
      type and the object of its own request (an RPC call or a WebSocket
      message), which a custom `lifetime` function may use as the key. */
  datatype Context =
    | GraphqlContext(req: Ref)
    | HttpContext(request: Ref)
    | OtherContext(contextType: string, message: Ref)
  {
    /** `context.getType()` */
    function GetType(): string
    {
      match this
      case GraphqlContext(_) => "graphql"
      case HttpContext(_) => "http"
      case OtherContext(t, _) => t
    }
  }

  /** Only a GraphQL context reports "graphql" and only an HTTP one reports "http". */
  type ExecutionContext = c: Context | c.OtherContext? ==> c.contextType != "graphql" && c.contextType != "http"
    witness HttpContext(0)

  /** Nest's dependency container: the provider instance that a non-strict
      lookup (`{ strict: false }`) finds for each token it can resolve. */
  datatype ModuleRef = ModuleRef(container: Ref, providers: map<FactoryId, Ref>)
  {
    /** `moduleRef.get(token, { strict: false })`: the instance, or a throw
        when no module of the application provides the token. */
    function Get(token: FactoryId): (r: Result<Ref>)
      ensures r.Ok? <==> token in providers
      ensures r.Ok? ==> r.value == providers[token]
      ensures r.Err? ==> r.error == UnknownElementException(token)
    {
      if token in providers then Ok(providers[token]) else Err(UnknownElementException(token))
    }
  }

  /** The handler that continues the request pipeline; `Handle()` stands for
      the observable `next.handle()` returns. */
  datatype CallHandler = CallHandler(stream: Ref)
  {
    function Handle(): Ref
    {
      stream
    }
  }
}
