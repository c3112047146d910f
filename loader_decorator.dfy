/** src/Loader.decorator.ts: the body of the `@Loader(Factory)` parameter
    decorator, which hands out the request's loader for a factory, building it
    on first use. */
module LoaderDecorator {
  import opened Nest
  import opened Internal
  import DataloaderFactory
  import Interceptor

  const NotRegisteredMessage: string := "DataLoaderInterceptor not registered in this Nest.js application"

  /** What one access does to the request's item: a hit returns the cached
      loader and changes nothing; a miss that the container cannot resolve
      throws and changes nothing; any other miss creates one new loader, caches
      it under `factory` and counts one `create`. The loader returned is the
      one cached. */
  twostate predicate GotOrCreated(item: StoreItem, factory: FactoryId, context: ExecutionContext, new r: Result<DataloaderFactory.DataLoader>)
    reads item
  {
    && (factory in old(item.dataloaders) ==>
          r == Ok(old(item.dataloaders[factory])) &&
          item.dataloaders == old(item.dataloaders) && item.createCalls == old(item.createCalls))
    && (factory !in old(item.dataloaders) && item.moduleRef.Get(factory).Err? ==>
          r == Err(item.moduleRef.Get(factory).error) &&
          item.dataloaders == old(item.dataloaders) && item.createCalls == old(item.createCalls))
    && (factory !in old(item.dataloaders) && item.moduleRef.Get(factory).Ok? ==>
          && r.Ok? && fresh(r.value)
          && r.value.factory == item.moduleRef.Get(factory).value
          && r.value.context == context
          && item.dataloaders == old(item.dataloaders)[factory := r.value]
          && item.createCalls == old(item.createCalls) + multiset{factory})
    && (r.Ok? ==> factory in item.dataloaders && r.value == item.dataloaders[factory])
  }

  /** `@Loader(Factory)`. `ctxkey` is the key function; it must be the one the
      interceptor was configured with. Throws when the key function throws or
      when the request has no store entry, and then changes nothing; otherwise
      does `GotOrCreated` on the request's item. No other item changes. */
  method Loader(store: Store, ctxkey: LifetimeKeyFn, factory: FactoryId, context: ExecutionContext)
    returns (r: Result<DataloaderFactory.DataLoader>)
    requires store.Valid()
    modifies store.entries.Values
    ensures store.Valid() && store.entries == old(store.entries)
    ensures ctxkey(context).Err? ==> r == Err(ctxkey(context).error) && unchanged(store.entries.Values)
    ensures ctxkey(context).Ok? && ctxkey(context).value !in store.entries ==>
      r == Err(Error(NotRegisteredMessage)) && unchanged(store.entries.Values)
    ensures ctxkey(context).Ok? && ctxkey(context).value in store.entries ==>
      && GotOrCreated(store.entries[ctxkey(context).value], factory, context, r)
      && (forall k :: k in store.entries && k != ctxkey(context).value ==> unchanged(store.entries[k]))
    ensures r.Ok? ==> ctxkey(context).Ok? && ctxkey(context).value in store.entries
  {
    var key := ctxkey(context);
    if key.Err? {
      return Err(key.error);
    }
    if key.value !in store.entries {
      return Err(Error(NotRegisteredMessage));
    }
    var item := store.entries[key.value];
    r := GetOrCreate(item, factory, context);
  }

  /** The cache step of the decorator on the request's item: `has`; on a miss,
      `moduleRef.get`, `create` and `set`; then `get`. */
  method GetOrCreate(item: StoreItem, factory: FactoryId, context: ExecutionContext)
    returns (r: Result<DataloaderFactory.DataLoader>)
    requires item.Valid()
    modifies item
    ensures item.Valid()
    ensures GotOrCreated(item, factory, context, r)
  {
    if factory !in item.dataloaders {
      var instance := item.moduleRef.Get(factory);
      if instance.Err? {
        return Err(instance.error);
      }
      var loader := DataloaderFactory.Create(instance.value, context);
      item.dataloaders := item.dataloaders[factory := loader];
      item.createCalls := item.createCalls + multiset{factory};
    }
    return Ok(item.dataloaders[factory]);
  }

  /** Two accesses to the same factory within one request give the identical
      loader, and `create` has run once. */
  method RepeatedAccess(store: Store, ctxkey: LifetimeKeyFn, factory: FactoryId, context: ExecutionContext)
    returns (first: Result<DataloaderFactory.DataLoader>, second: Result<DataloaderFactory.DataLoader>)
    requires store.Valid()
    modifies store.entries.Values
    ensures store.Valid()
    ensures first.Ok? ==> second == first
    ensures first.Ok? ==> ctxkey(context).Ok? && ctxkey(context).value in store.entries
    ensures first.Ok? ==> store.entries[ctxkey(context).value].createCalls[factory] == 1
  {
    first := Loader(store, ctxkey, factory, context);
    second := Loader(store, ctxkey, factory, context);
    if first.Ok? {
      AtMostOneCreate(store, ctxkey(context).value, factory);
    }
  }

  /** The two registry steps with one key function: build the interceptor,
      intercept the request, then ask for `factory` with the interceptor's own
      `lifetime`. */
  method InterceptThenLoad(moduleRef: ModuleRef, options: Option<Interceptor.DataloaderOptions>, store: Store,
                           context: ExecutionContext, next: CallHandler, factory: FactoryId)
    returns (r: Result<DataloaderFactory.DataLoader>)
    requires store.Valid()
    modifies store, store.entries.Values
    ensures store.Valid()
    ensures Interceptor.ResolveLifetime(options).Err? ==> r == Err(Interceptor.ResolveLifetime(options).error)
    ensures Interceptor.ResolveLifetime(options).Ok? && Interceptor.ResolveLifetime(options).value(context).Err? ==>
      r == Err(Interceptor.ResolveLifetime(options).value(context).error)
    ensures Interceptor.ResolveLifetime(options).Ok? && Interceptor.ResolveLifetime(options).value(context).Ok? ==>
      && (factory in moduleRef.providers ==>
            r.Ok? && fresh(r.value) && r.value.factory == moduleRef.providers[factory] && r.value.context == context)
      && (factory !in moduleRef.providers ==> r == Err(UnknownElementException(factory)))
  {
    var interceptor := Interceptor.DataloaderInterceptor.Construct(moduleRef, options);
    if interceptor.Err? {
      return Err(interceptor.error);
    }
    var handled := interceptor.value.Intercept(store, context, next);
    if handled.Err? {
      return Err(handled.error);
    }
    r := Loader(store, interceptor.value.lifetime, factory, context);
  }
}
