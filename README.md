# nestjs-dataloader, modelled in Dafny

`@strv/nestjs-dataloader` gives every request of a Nest.js application its own
set of `DataLoader` instances. It has three parts:

- an interceptor that, at the start of each request, stores a fresh entry under
  a key whose lifetime is the request's;
- a `@Loader(Factory)` parameter decorator that finds that entry and returns the
  request's loader for a factory, building it on first use;
- a `DataloaderFactory` base class that turns a user's unordered batch `load`
  into the positionally aligned answer `DataLoader` needs. It also offers
  `aggregateBy` for one-to-many results.

The Dafny project has one module per source file, plus `Nest` for the framework
objects the core only handles:

| file | module | source |
|---|---|---|
| nest.dfy | `Nest` | object identities, `ExecutionContext`, `ModuleRef`, `CallHandler`, thrown exceptions |
| dataloader_factory.dfy | `DataloaderFactory` | src/DataloaderFactory.ts |
| internal.dfy | `Internal` | src/internal.ts (with `DataloaderException` as an error value) |
| interceptor.dfy | `Interceptor` | src/Dataloader.interceptor.ts |
| loader_decorator.dfy | `LoaderDecorator` | src/Loader.decorator.ts |

The pure code is modelled as functions:

- `#load` is `Load`, built from `Align`, `IndexOf` and `NotFound`.
- `lifetimeKey` is `LifetimeKey`.
- The option merge and checks are `MergeOptions` and `ResolveLifetime`.

The code that changes state is modelled imperatively:

- `aggregateBy` is the loop `AggregateBy`, proved equal to the function
  `Grouped`. Lemmas about `Grouped` give its ordering and partition properties.
- The store is the class `Internal.Store`. Its map goes from lifetime keys to
  `Internal.StoreItem` objects.
- `Loader` changes an item's `dataloaders` map in place, as the source does.
- A ghost multiset `createCalls` on each item records the factories `create`
  ran for since the entry was installed. `StoreItem.Valid()` keeps it equal to
  the set of cached factories, so `create` has run at most once per
  (installed entry, factory), that is, since the last `intercept` for that key.
  `intercept` calls `store.set` unconditionally, so a second `intercept` for
  the same key throws the cached loaders away and `create` runs again. The
  bound is once per (request, factory) only when the interceptor runs once
  per request key.

In these details the model follows the TypeScript code:

- A request without an entry makes the decorator throw a plain `Error` with the
  message "DataLoaderInterceptor not registered in this Nest.js application".
- An unsupported context type makes `lifetimeKey` throw a `DataloaderException`
  whose message ends with the type.
- src/Loader.decorator.ts:2 imports `ctxkey` from src/internal.ts, but that file
  does not export it. The model's `Loader` therefore takes the key function as a
  parameter, `ctxkey`. Passing it the same function the interceptor was
  configured with is the caller's responsibility, as the option's
  documentation says.
- JavaScript's object spread lets an explicit `lifetime: undefined` override the
  default. The constructor then throws "`lifetime` must be set". The model keeps
  this behaviour: `OtherValue(truthy := false)` stands for such a value.

## Model

| member | source | states |
|---|---|---|
| DataloaderFactory.IndexOf | src/DataloaderFactory.ts:53-54 | `indexOf` returns -1 exactly when the id is absent; otherwise it returns the first position holding the id |
| DataloaderFactory.NotFound | src/DataloaderFactory.ts:55 | the fallback is never a found value; it is the hook's `Error` exactly when the hook exists and returns one, and `null` otherwise |
| DataloaderFactory.Align | src/DataloaderFactory.ts:52-56 | the answer has one slot per requested id |
| DataloaderFactory.Load | src/DataloaderFactory.ts:48-57 | `#load` returns exactly as many slots as ids were requested |
| DataloaderFactory.AlignFound | src/DataloaderFactory.ts:50-55 | a requested id that some result carries gets the first such result in `load`'s output; later duplicates are ignored |
| DataloaderFactory.AlignMissing | src/DataloaderFactory.ts:53-55 | a requested id that no result carries gets `onNotFound(id)` when the hook exists and returns an error, and `null` otherwise |
| DataloaderFactory.AlignPermutation | src/DataloaderFactory.ts:50-55 | when no two results share an id, any reordering of `load`'s output gives the same answer |
| DataloaderFactory.LoadUsesOneBatch | src/DataloaderFactory.ts:48-49 | `#load` uses only `load`'s answer for the requested ids in their order: any `load` that agrees on that one call gives the same result |
| DataloaderFactory.AlignExample | src/DataloaderFactory.ts:48-56 | ids 1,2,3,4 with results found only for 3,1,2 (in that order) give [1, 2, 3, null] |
| DataloaderFactory.FirstOccurrences | src/DataloaderFactory.ts:36-41 | the `Map`'s keys are the distinct ids of the items: every id appears, nothing else does, none twice |
| DataloaderFactory.MembersSnoc | src/DataloaderFactory.ts:36-38 | a new item is appended at the end of its own group's array and leaves every other group as it was, so each group keeps the items' input order |
| DataloaderFactory.MembersOnly | src/DataloaderFactory.ts:36-38 | a group holds only items of the input whose id is the group's |
| DataloaderFactory.Grouped | src/DataloaderFactory.ts:31-42 | the groups have distinct ids, each an id of some item, and no group is empty |
| DataloaderFactory.GroupsInFirstSeenOrder | src/DataloaderFactory.ts:36-41 | groups come out in the order their ids are first seen among the items |
| DataloaderFactory.GroupedPartition | src/DataloaderFactory.ts:34-38 | the groups' values together are a permutation of the items, so the group sizes add up to `items.length` |
| DataloaderFactory.ItemInItsGroup | src/DataloaderFactory.ts:35-38 | each item is in the group whose id is `identify(item)`; ids are distinct, so this group is the only one |
| DataloaderFactory.AggregateBy | src/DataloaderFactory.ts:31-42 | the loop over the items, with the `Map` kept as insertion order plus contents, returns exactly `Grouped(items, identify)` |
| DataloaderFactory.Create | src/DataloaderFactory.ts:17-20 | `create` returns a new loader on every call, bound to the factory instance and the context |
| Internal.LifetimeKey | src/internal.ts:30-39 | a GraphQL context resolves to its `req` and an HTTP context to its request; any other type throws a `DataloaderException` whose message ends with the type, and no key is returned; as a function, it gives the same key for the same context |
| Internal.StoreItem.constructor | src/internal.ts:12-17 | a new item holds the container, no loaders and no `create` calls |
| Internal.Store.constructor | src/internal.ts:23 | the store starts empty |
| Internal.AtMostOneCreate | src/Loader.decorator.ts:15-21 | in a valid store, `create` has run at most once per (installed entry, factory), counted since the last `intercept` for that key, and exactly once for each cached factory |
| Interceptor.MergeOptions | src/Dataloader.interceptor.ts:36-39 | without options, or with no `lifetime` property, the value is `lifetimeKey`; a present property, even `undefined`, overrides it |
| Interceptor.ResolveLifetime | src/Dataloader.interceptor.ts:36-42 | construction succeeds exactly when the merged `lifetime` is a function, with that function; a falsy value fails with "`lifetime` must be set", and another non-function with "`lifetime` must be a function" |
| Interceptor.DefaultLifetime | src/Dataloader.interceptor.ts:36-39 | with no `lifetime` configured, the key function is `lifetimeKey` |
| Interceptor.SuppliedLifetime | src/Dataloader.interceptor.ts:36-39 | a supplied `lifetime` function replaces the default |
| Interceptor.DataloaderInterceptor.Construct | src/Dataloader.interceptor.ts:34-43 | the constructor keeps `moduleRef` and the resolved `lifetime`, or throws the assertion error of `ResolveLifetime` |
| Interceptor.DataloaderInterceptor.Intercept | src/Dataloader.interceptor.ts:45-52 | the request's key is (re)bound to a new entry with this container, no loaders and no `create` calls; other keys' entries stay the same, the store stays valid, and `next.handle()` comes back; if the key function throws, the store is unchanged |
| LoaderDecorator.Loader | src/Loader.decorator.ts:8-22 | throws if the key function throws, if the request has no entry ("DataLoaderInterceptor not registered…"), or if the container cannot resolve the factory, and then changes nothing; otherwise returns the cached loader unchanged, or creates one, caches it under the factory and counts one `create`; the returned loader is the one cached; other factories, other keys and the container are untouched |
| LoaderDecorator.GetOrCreate | src/Loader.decorator.ts:15-21 | on the request's item: a cached factory returns its loader and changes nothing; an unresolvable factory throws the container's error and changes nothing; otherwise one new loader is created, cached and counted, and returned; the item stays valid |
| LoaderDecorator.InterceptThenLoad | src/Loader.decorator.ts:8-22 | constructing the interceptor, intercepting a request and then asking for a factory with the same key function gives a fresh loader for that factory's provider and the request's context, whenever the options resolve, the key function answers and the container resolves the factory; an unresolvable factory fails with `UnknownElementException`; a failed construction or key function is passed on as that error |
| LoaderDecorator.RepeatedAccess | src/Loader.decorator.ts:15-21 | two accesses with the same factory in one request return the identical loader, and `create` ran once |

## Left out

- The `dataloader` library behind `create`: batching, caching and in-flight de-duplication. The model's `DataLoader` is an opaque handle recording its factory instance and context. So the claim that one batch serves N lookups is not modelled.
- DataloaderFactory.Create: the handle does not carry the batch function `ids => this.#load(ids, context)`, so the link between a handle and `Load` is by documentation only.
- Promises, `await` and the observable returned by `next.handle()`. `Intercept` returns the handler's stream as an opaque value.
- Concurrency between requests.
- Errors raised by the user's callbacks. The model treats `load`, `id`, `onNotFound` (src/DataloaderFactory.ts:49-55), `identify` (src/DataloaderFactory.ts:35) and `factory.create(context)` (src/Loader.decorator.ts:18) as total functions that always answer. In the source, a rejected `load` or a throwing `id` or `onNotFound` makes the whole `#load` call fail, so every key of the batch fails. A throwing `identify` aborts `aggregateBy`. A throwing `create`, from a subclass that overrides it or a resolved provider that has none, propagates out of the decorator and caches nothing.
- The garbage-collection behaviour of `WeakMap` (src/internal.ts:23). The store is an ordinary map, and the model makes no claim about reclamation.
- The module-level `store` constant is a single shared object. In the model, the same `Store` object is passed to `Intercept` and to `Loader`.
- Nest's own machinery is replaced by data. `ModuleRef.get` with `{ strict: false }` becomes a lookup in a map of resolvable providers, and a miss becomes an `UnknownElementException`. `GqlExecutionContext.create(...).getContext().req` and `switchToHttp().getRequest()` become fields of the context datatype.
- Internal.LifetimeKey: a GraphQL context without a `req` property is not modelled. Its key would be `undefined`, and the later `WeakMap.set` would throw a `TypeError`.
- DataloaderFactory.Align: every result is treated as a non-nullish value. In the source, a matching result that is itself `null` or `undefined` would fall through `??` to `onNotFound`.
- JavaScript equality details. `indexOf` uses `===`, and `Map` uses SameValueZero, which differ on `NaN`. Ids are compared with Dafny's `==`.
- The in-place `push` onto the array stored in the `Map` (src/DataloaderFactory.ts:36-38). It is modelled as replacing that key's value, which is the same thing because no other reference to the array escapes.
- The `CacheID` type parameter of `DataloaderFactory` is only passed on to `DataLoader`.
- Module and provider registration (src/DataloaderCore.module.ts, src/Dataloader.module.ts), type declarations and re-exports (src/types.ts, src/index.ts). They contain no logic. Two of src/index.ts's references do not resolve to anything in the source: it re-exports `createLoaderDecorator`, which src/Loader.decorator.ts does not define, and it re-exports `DataloaderFactory`, `LoaderFrom` and `Aggregated` from `./Dataloader.factory.js`, while the class is defined in src/DataloaderFactory.ts.
- `DataloaderException`'s stack-trace capture. The exception is only an error value with a message.
