/** src/Dataloader.interceptor.ts: the interceptor that, at the start of every
    request, installs a fresh store entry under the request's lifetime key. */
module Interceptor {
  import opened Nest
  import opened Internal

  /** A JavaScript value given as the `lifetime` option: a function, or some
      other value that is truthy or falsy (`undefined`, `null`, `0`, ...). */
  datatype LifetimeValue = FunctionValue(fn: LifetimeKeyFn) | OtherValue(truthy: bool)

  /** `DataloaderOptions`; `lifetime` is `None` when the property is absent. */
  datatype DataloaderOptions = DataloaderOptions(lifetime: Option<LifetimeValue>)

  const LifetimeNotSet: string := "`lifetime` must be set"
  const LifetimeNotFunction: string := "`lifetime` must be a function"

  /** `{ lifetime: lifetimeKey, ...options }`: the given property wins over the
      default whenever it is present, even when its value is `undefined`. */
  function MergeOptions(options: Option<DataloaderOptions>): (v: LifetimeValue)
    ensures options.None? || options.value.lifetime.None? ==> v == FunctionValue(LifetimeKey)
    ensures options.Some? && options.value.lifetime.Some? ==> v == options.value.lifetime.value
  {
    match options
    case None => FunctionValue(LifetimeKey)
    case Some(o) =>
      match o.lifetime
      case None => FunctionValue(LifetimeKey)
      case Some(v) => v
  }

  /** The key function the interceptor ends up with, or the assertion that the
      constructor throws. */
  function ResolveLifetime(options: Option<DataloaderOptions>): (r: Result<LifetimeKeyFn>)
    ensures r.Ok? <==> MergeOptions(options).FunctionValue?
    ensures r.Ok? ==> r.value == MergeOptions(options).fn
    ensures r.Err? ==> r.error.AssertionError?
    ensures r.Err? && !MergeOptions(options).truthy ==> r.error.message == LifetimeNotSet
    ensures r.Err? && MergeOptions(options).truthy ==> r.error.message == LifetimeNotFunction
  {
    match MergeOptions(options)
    case FunctionValue(fn) => Ok(fn)
    case OtherValue(truthy) =>
      if !truthy then Err(AssertionError(LifetimeNotSet)) else Err(AssertionError(LifetimeNotFunction))
  }

  /** With no options, or no `lifetime` among them, the default resolver is used. */
  lemma DefaultLifetime(options: Option<DataloaderOptions>)
    requires options.None? || options.value.lifetime.None?
    ensures ResolveLifetime(options) == Ok(LifetimeKey)
  {
  }

  /** A supplied function overrides the default. */
  lemma SuppliedLifetime(fn: LifetimeKeyFn)
    ensures ResolveLifetime(Some(DataloaderOptions(Some(FunctionValue(fn))))) == Ok(fn)
  {
  }

  class DataloaderInterceptor {
    /** `#moduleRef` */
    const moduleRef: ModuleRef
    /** `#options.lifetime` */
    const lifetime: LifetimeKeyFn

    constructor (moduleRef: ModuleRef, lifetime: LifetimeKeyFn)
      ensures this.moduleRef == moduleRef && this.lifetime == lifetime
    {
      this.moduleRef := moduleRef;
      this.lifetime := lifetime;
    }

    /** `new DataloaderInterceptor(moduleRef, options)`: fills in the default
        `lifetime` and throws when the result is not a function. */
    static method Construct(moduleRef: ModuleRef, options: Option<DataloaderOptions>) returns (r: Result<DataloaderInterceptor>)
      ensures r.Ok? <==> ResolveLifetime(options).Ok?
      ensures r.Err? ==> r.error == ResolveLifetime(options).error
      ensures r.Ok? ==> fresh(r.value) && r.value.moduleRef == moduleRef && r.value.lifetime == ResolveLifetime(options).value
    {
      var lifetime := ResolveLifetime(options);
      if lifetime.Err? {
        return Err(lifetime.error);
      }
      var interceptor := new DataloaderInterceptor(moduleRef, lifetime.value);
      return Ok(interceptor);
    }

    /** `intercept(context, next)`: replaces the entry of the request's key by a
        fresh one with this interceptor's container and no loaders, then hands
        on to `next.handle()`. When the key function throws, nothing changes. */
    method Intercept(store: Store, context: ExecutionContext, next: CallHandler) returns (r: Result<Ref>)
      requires store.Valid()
      modifies store
      ensures store.Valid()
      ensures lifetime(context).Err? ==> r == Err(lifetime(context).error) && store.entries == old(store.entries)
      ensures lifetime(context).Ok? ==>
        var key := lifetime(context).value;
        && r == Ok(next.Handle())
        && store.entries.Keys == old(store.entries.Keys) + {key}
        && fresh(store.entries[key])
        && store.entries[key].moduleRef == moduleRef
        && store.entries[key].dataloaders == map[]
        && store.entries[key].createCalls == multiset{}
        && (forall k :: k in old(store.entries) && k != key ==> store.entries[k] == old(store.entries[k]))
    {
      var key := lifetime(context);
      if key.Err? {
        return Err(key.error);
      }
      var item := new StoreItem(moduleRef);
      store.entries := store.entries[key.value := item];
      return Ok(next.Handle());
    }
  }
}
