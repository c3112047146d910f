/** src/internal.ts: the default lifetime-key resolver and the store that ties
    the loaders of one request to that request's key. */
module Internal {
  import opened Nest
  import DataloaderFactory

  /** A lifetime-key function: the object that lives exactly as long as the
      request of `context`, or a throw (src/types.ts:11). */
  type LifetimeKeyFn = ExecutionContext -> Result<Ref>

  const UnsupportedContextPrefix: string := "Unknown or unsupported context type: "

  /** `lifetimeKey`: GraphQL contexts resolve to their `req`, HTTP contexts to
      the request object, and every other transport throws. */
  function LifetimeKey(context: ExecutionContext): (r: Result<Ref>)
    ensures r.Ok? <==> context.GetType() == "graphql" || context.GetType() == "http"
    ensures context.GetType() == "graphql" ==> r == Ok(context.req)
    ensures context.GetType() == "http" ==> r == Ok(context.request)
    ensures r.Err? ==> r.error.DataloaderException?
    ensures r.Err? ==> r.error.message == UnsupportedContextPrefix + context.GetType()
  {
    match context.GetType()
    case "graphql" => Ok(context.req)
    case "http" => Ok(context.request)
    case _ => Err(DataloaderException(UnsupportedContextPrefix + context.GetType()))
  }

  /** What the store keeps per request: the container, and the loaders built so
      far, keyed by factory class. `createCalls` counts, for each factory, how
      often `create` ran since the entry was installed. */
  class StoreItem {
    const moduleRef: ModuleRef
    var dataloaders: map<FactoryId, DataloaderFactory.DataLoader>
    ghost var createCalls: multiset<FactoryId>

    /** Each cached loader was created exactly once, and nothing else was created. */
    ghost predicate Valid()
      reads this
    {
      createCalls == multiset(dataloaders.Keys)
    }

    constructor (moduleRef: ModuleRef)
      ensures Valid()
      ensures this.moduleRef == moduleRef && dataloaders == map[] && createCalls == multiset{}
    {
      this.moduleRef := moduleRef;
      dataloaders := map[];
      createCalls := multiset{};
    }
  }

  /** `store`: a map from lifetime keys to their items. No two keys share an item. */
  class Store {
    var entries: map<Ref, StoreItem>

    ghost predicate Valid()
      reads this, entries.Values
    {
      && (forall key :: key in entries ==> entries[key].Valid())
      && (forall a, b :: a in entries && b in entries && a != b ==> entries[a] != entries[b])
    }

    constructor ()
      ensures Valid() && entries == map[]
    {
      entries := map[];
    }
  }

  /** At most one `create` per (installed entry, factory): since the last
      `intercept` for `key`, a loader is never built twice for the same factory. */
  lemma AtMostOneCreate(store: Store, key: Ref, factory: FactoryId)
    requires store.Valid()
    requires key in store.entries
    ensures store.entries[key].createCalls[factory] <= 1
    ensures store.entries[key].createCalls[factory] == 1 <==> factory in store.entries[key].dataloaders
  {
    assert store.entries[key].Valid();
  }
}
