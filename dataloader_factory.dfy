/** The loader-factory base class of src/DataloaderFactory.ts: re-aligning the
    results of a user's batch `load` to the requested ids (`#load`), grouping
    items by id (`aggregateBy`), and `create`, which wraps both in a loader. */
module DataloaderFactory {
  import opened Nest

  /** One slot of the answer handed back to the batching library: the matching
      result, the `Error` that `onNotFound` chose, or `null`. */
  datatype Slot<V, E> = Found(value: V) | Rejected(error: E) | Null

  /** What a concrete factory supplies: its `load`, its `id` and its optional
      `onNotFound` hook (`None` when the hook does not exist; the hook itself
      answers `None` for `null`). */
  datatype Factory<!ID, !V, E> = Factory(
    load: (seq<ID>, ExecutionContext) -> seq<V>,
    id: V -> ID,
    onNotFound: Option<ID -> Option<E>>)

  // ---------------------------------------------------------------------------
  // #load

  /** `s.indexOf(x)`: the first position holding `x`, or -1. */
  function IndexOf<T(==)>(s: seq<T>, x: T): (r: int)
    ensures -1 <= r < |s|
    ensures r == -1 <==> x !in s
    ensures 0 <= r ==> s[r] == x && x !in s[..r]
  {
    if |s| == 0 then -1
    else if s[0] == x then 0
    else
      var k := IndexOf(s[1..], x);
      if k == -1 then -1
      else
        assert s[..k + 1] == [s[0]] + s[1..][..k];
        k + 1
  }

  /** `results.map(item => this.id(item))` */
  function Locations<ID, V>(results: seq<V>, id: V -> ID): (r: seq<ID>)
    ensures |r| == |results|
    ensures forall k :: 0 <= k < |results| ==> r[k] == id(results[k])
  {
    seq(|results|, k requires 0 <= k < |results| => id(results[k]))
  }

  /** `this.onNotFound?.(id) ?? null` */
  function NotFound<ID, V, E>(onNotFound: Option<ID -> Option<E>>, id: ID): (r: Slot<V, E>)
    ensures r.Found? == false
    ensures r.Rejected? <==> onNotFound.Some? && onNotFound.value(id).Some?
    ensures r.Rejected? ==> r.error == onNotFound.value(id).value
  {
    match onNotFound
    case None => Null
    case Some(hook) =>
      match hook(id)
      case None => Null
      case Some(e) => Rejected(e)
  }

  /** The body of the `ids.map(...)` callback: look up the position of `id`
      among the locations and fall back to the not-found policy. */
  function SlotFor<ID(==), V, E>(results: seq<V>, locations: seq<ID>, onNotFound: Option<ID -> Option<E>>, id: ID): Slot<V, E>
    requires |locations| == |results|
  {
    var position := IndexOf(locations, id);
    if 0 <= position then Found(results[position]) else NotFound(onNotFound, id)
  }

  /** The list `#load` returns: one slot per requested id, in the ids' order,
      whatever order `results` came in. */
  function Align<ID(==), V, E>(ids: seq<ID>, results: seq<V>, id: V -> ID, onNotFound: Option<ID -> Option<E>>): (r: seq<Slot<V, E>>)
    ensures |r| == |ids|
  {
    var locations := Locations(results, id);
    seq(|ids|, i requires 0 <= i < |ids| => SlotFor(results, locations, onNotFound, ids[i]))
  }

  /** `#load(ids, context)`: one call of the factory's `load` with the requested
      ids, then the alignment. */
  function Load<ID(==), V, E>(factory: Factory<ID, V, E>, ids: seq<ID>, context: ExecutionContext): (r: seq<Slot<V, E>>)
    ensures |r| == |ids|
  {
    Align(ids, factory.load(ids, context), factory.id, factory.onNotFound)
  }

  /** Position `k` holds the first result that carries `key`. */
  ghost predicate IsFirstWith<ID, V>(results: seq<V>, id: V -> ID, key: ID, k: int)
  {
    0 <= k < |results| && id(results[k]) == key &&
    forall j :: 0 <= j < k ==> id(results[j]) != key
  }

  /** No two results carry the same id. */
  ghost predicate DistinctIds<ID, V>(results: seq<V>, id: V -> ID)
  {
    forall a, b :: 0 <= a < b < |results| ==> id(results[a]) != id(results[b])
  }

  /** A requested id that some result carries gets the FIRST such result; later
      results with the same id are ignored. */
  lemma AlignFound<ID, V, E>(ids: seq<ID>, results: seq<V>, id: V -> ID, onNotFound: Option<ID -> Option<E>>, i: nat, k: int)
    requires i < |ids|
    requires IsFirstWith(results, id, ids[i], k)
    ensures Align(ids, results, id, onNotFound)[i] == Found(results[k])
  {
    var locations := Locations(results, id);
    var p := IndexOf(locations, ids[i]);
    assert locations[k] == ids[i];
  }

  /** A requested id that no result carries gets `onNotFound(id)` when the hook
      exists and answers an error, and `null` otherwise. */
  lemma AlignMissing<ID, V, E>(ids: seq<ID>, results: seq<V>, id: V -> ID, onNotFound: Option<ID -> Option<E>>, i: nat)
    requires i < |ids|
    requires forall k :: 0 <= k < |results| ==> id(results[k]) != ids[i]
    ensures onNotFound.Some? && onNotFound.value(ids[i]).Some? ==>
      Align(ids, results, id, onNotFound)[i] == Rejected(onNotFound.value(ids[i]).value)
    ensures onNotFound.None? || onNotFound.value(ids[i]).None? ==>
      Align(ids, results, id, onNotFound)[i] == Null
  {
    var locations := Locations(results, id);
    assert ids[i] !in locations;
  }

  /** When no two results share an id, the order in which `load` returns them
      does not matter. */
  lemma AlignPermutation<ID, V, E>(ids: seq<ID>, results: seq<V>, shuffled: seq<V>, id: V -> ID, onNotFound: Option<ID -> Option<E>>)
    requires DistinctIds(results, id)
    requires multiset(shuffled) == multiset(results)
    ensures Align(ids, shuffled, id, onNotFound) == Align(ids, results, id, onNotFound)
  {
    var a := Align(ids, results, id, onNotFound);
    var b := Align(ids, shuffled, id, onNotFound);
    var locations := Locations(results, id);
    var shuffledLocations := Locations(shuffled, id);
    forall i | 0 <= i < |ids|
      ensures a[i] == b[i]
    {
      var key := ids[i];
      var p := IndexOf(locations, key);
      var q := IndexOf(shuffledLocations, key);
      if 0 <= q {
        // the result at q also sits somewhere in results, under the same id
        var y := shuffled[q];
        assert y in multiset(shuffled);
        var m :| 0 <= m < |results| && results[m] == y;
        assert locations[m] == key;
        assert 0 <= p;
        assert id(results[p]) == key;
        assert p == m;
      } else {
        forall m | 0 <= m < |results|
          ensures id(results[m]) != key
        {
          var x := results[m];
          assert x in multiset(shuffled);
          var j :| 0 <= j < |shuffled| && shuffled[j] == x;
          assert shuffledLocations[j] == id(x);
        }
      }
    }
  }

  /** `#load` consults the factory's `load` for this one batch only: replacing
      `load` by any function that answers the same for these ids changes nothing. */
  lemma LoadUsesOneBatch<ID, V, E>(factory: Factory<ID, V, E>, other: (seq<ID>, ExecutionContext) -> seq<V>, ids: seq<ID>, context: ExecutionContext)
    requires other(ids, context) == factory.load(ids, context)
    ensures Load(factory.(load := other), ids, context) == Load(factory, ids, context)
  {
  }

  // ---------------------------------------------------------------------------
  // aggregateBy

  /** One group of `aggregateBy`'s answer. */
  datatype Aggregated<ID, T> = Aggregated(id: ID, values: seq<T>)

  /** `identify` applied to every item, in order. */
  function Ids<T, ID>(items: seq<T>, identify: T -> ID): (r: seq<ID>)
    ensures |r| == |items|
    ensures forall i :: 0 <= i < |items| ==> r[i] == identify(items[i])
  {
    seq(|items|, i requires 0 <= i < |items| => identify(items[i]))
  }

  /** The distinct elements of `s`, in the order of their first occurrence. */
  function FirstOccurrences<K(==)>(s: seq<K>): (r: seq<K>)
    ensures forall i :: 0 <= i < |r| ==> r[i] in s
    ensures forall i :: 0 <= i < |s| ==> s[i] in r
    ensures forall a, b :: 0 <= a < b < |r| ==> r[a] != r[b]
  {
    if s == [] then []
    else
      var init := FirstOccurrences(s[..|s| - 1]);
      if s[|s| - 1] in s[..|s| - 1] then init else init + [s[|s| - 1]]
  }

  /** The items whose id is `key`, in their input order. */
  function Members<T, ID(==)>(items: seq<T>, identify: T -> ID, key: ID): seq<T>
  {
    if items == [] then []
    else
      var init := Members(items[..|items| - 1], identify, key);
      if identify(items[|items| - 1]) == key then init + [items[|items| - 1]] else init
  }

  /** One group per key, each holding the items with that key. */
  function GroupsOver<T, ID(==)>(items: seq<T>, identify: T -> ID, keys: seq<ID>): (r: seq<Aggregated<ID, T>>)
    ensures |r| == |keys|
    ensures forall j :: 0 <= j < |keys| ==> r[j] == Aggregated(keys[j], Members(items, identify, keys[j]))
  {
    seq(|keys|, j requires 0 <= j < |keys| => Aggregated(keys[j], Members(items, identify, keys[j])))
  }

  /** What `aggregateBy(items, identify)` answers: a group per distinct id, in
      the order the ids are first seen, with distinct ids and no empty group. */
  function Grouped<T, ID(==)>(items: seq<T>, identify: T -> ID): (r: seq<Aggregated<ID, T>>)
    ensures forall a, b :: 0 <= a < b < |r| ==> r[a].id != r[b].id
    ensures forall j :: 0 <= j < |r| ==> r[j].values != []
    ensures forall j :: 0 <= j < |r| ==> r[j].id in Ids(items, identify)
  {
    var keys := FirstOccurrences(Ids(items, identify));
    forall key | key in Ids(items, identify)
      ensures Members(items, identify, key) != []
    {
      MembersPresent(items, identify, key);
    }
    GroupsOver(items, identify, keys)
  }

  /** All the values of the groups, one group after the other. */
  function Flatten<ID, T>(groups: seq<Aggregated<ID, T>>): seq<T>
  {
    if groups == [] then [] else Flatten(groups[..|groups| - 1]) + groups[|groups| - 1].values
  }

  lemma {:induction false} IdsSnoc<T, ID>(items: seq<T>, identify: T -> ID, x: T)
    ensures Ids(items + [x], identify) == Ids(items, identify) + [identify(x)]
  {
  }

  lemma {:induction false} MembersPresent<T, ID>(items: seq<T>, identify: T -> ID, key: ID)
    ensures Members(items, identify, key) != [] <==> key in Ids(items, identify)
  {
    if items != [] {
      var init := items[..|items| - 1];
      MembersPresent(init, identify, key);
      assert items == init + [items[|items| - 1]];
      IdsSnoc(init, identify, items[|items| - 1]);
    }
  }

  /** A group holds only items of the input, and only ones with the group's id. */
  lemma {:induction false} MembersOnly<T, ID>(items: seq<T>, identify: T -> ID, key: ID)
    ensures forall i :: 0 <= i < |Members(items, identify, key)| ==>
      Members(items, identify, key)[i] in items && identify(Members(items, identify, key)[i]) == key
  {
    if items != [] {
      var init := items[..|items| - 1];
      MembersOnly(init, identify, key);
      assert items == init + [items[|items| - 1]];
    }
  }

  /** `push` appends: a new item goes at the end of its own group and nowhere
      else, so every group keeps the items' input order. */
  lemma {:induction false} MembersSnoc<T, ID>(items: seq<T>, identify: T -> ID, key: ID, x: T)
    ensures Members(items + [x], identify, key) ==
            Members(items, identify, key) + (if identify(x) == key then [x] else [])
  {
    assert (items + [x])[..|items|] == items;
  }

  lemma {:induction false} GroupsOverSnoc<T, ID>(items: seq<T>, identify: T -> ID, keys: seq<ID>, k: ID)
    ensures Flatten(GroupsOver(items, identify, keys + [k])) ==
            Flatten(GroupsOver(items, identify, keys)) + Members(items, identify, k)
  {
    var groups := GroupsOver(items, identify, keys + [k]);
    assert groups[..|keys|] == GroupsOver(items, identify, keys);
  }

  /** Over distinct keys, the groups gain exactly the new item, in the group of its id. */
  lemma {:induction false} FlattenSnoc<T, ID>(items: seq<T>, identify: T -> ID, keys: seq<ID>, x: T)
    requires forall a, b :: 0 <= a < b < |keys| ==> keys[a] != keys[b]
    ensures multiset(Flatten(GroupsOver(items + [x], identify, keys))) ==
            multiset(Flatten(GroupsOver(items, identify, keys))) + (if identify(x) in keys then multiset{x} else multiset{})
    decreases |keys|
  {
    if keys != [] {
      var init := keys[..|keys| - 1];
      var k := keys[|keys| - 1];
      assert keys == init + [k];
      assert k !in init;
      FlattenSnoc(items, identify, init, x);
      FlattenSnocStep(items, identify, init, k, x);
    }
  }

  /** The step of `FlattenSnoc` that adds the group of one more key `k`. */
  lemma FlattenSnocStep<T, ID>(items: seq<T>, identify: T -> ID, init: seq<ID>, k: ID, x: T)
    requires k !in init
    requires multiset(Flatten(GroupsOver(items + [x], identify, init))) ==
             multiset(Flatten(GroupsOver(items, identify, init))) + (if identify(x) in init then multiset{x} else multiset{})
    ensures multiset(Flatten(GroupsOver(items + [x], identify, init + [k]))) ==
            multiset(Flatten(GroupsOver(items, identify, init + [k]))) + (if identify(x) in init + [k] then multiset{x} else multiset{})
  {
    var before := Flatten(GroupsOver(items, identify, init));
    var after := Flatten(GroupsOver(items + [x], identify, init));
    GroupsOverSnoc(items + [x], identify, init, k);
    GroupsOverSnoc(items, identify, init, k);
    MembersSnoc(items, identify, k, x);
    var m := Members(items, identify, k);
    var e: multiset<T> := if identify(x) in init then multiset{x} else multiset{};
    var f: multiset<T> := if identify(x) == k then multiset{x} else multiset{};
    ConcatMultiset(before, after, m, Members(items + [x], identify, k), e, f);
    assert identify(x) in init + [k] <==> identify(x) in init || identify(x) == k;
  }

  lemma ConcatMultiset<T>(before: seq<T>, after: seq<T>, m: seq<T>, m': seq<T>, e: multiset<T>, f: multiset<T>)
    requires multiset(after) == multiset(before) + e
    requires multiset(m') == multiset(m) + f
    ensures multiset(after + m') == multiset(before + m) + e + f
  {
  }

  lemma {:induction false} FirstOccurrencesSnoc<K>(s: seq<K>, x: K)
    ensures FirstOccurrences(s + [x]) == FirstOccurrences(s) + (if x in s then [] else [x])
  {
    assert (s + [x])[..|s|] == s;
  }

  /** The groups over the first-seen ids hold every item once. */
  lemma {:induction false} FlattenFirstSeen<T, ID>(items: seq<T>, identify: T -> ID)
    ensures multiset(Flatten(GroupsOver(items, identify, FirstOccurrences(Ids(items, identify))))) == multiset(items)
  {
    if items != [] {
      var init := items[..|items| - 1];
      var x := items[|items| - 1];
      assert items == init + [x];
      FlattenFirstSeen(init, identify);
      FirstSeenStep(init, identify, x);
    }
  }

  /** The step of `FlattenFirstSeen` for one more item `x`. */
  lemma FirstSeenStep<T, ID>(init: seq<T>, identify: T -> ID, x: T)
    requires multiset(Flatten(GroupsOver(init, identify, FirstOccurrences(Ids(init, identify))))) == multiset(init)
    ensures multiset(Flatten(GroupsOver(init + [x], identify, FirstOccurrences(Ids(init + [x], identify))))) == multiset(init + [x])
  {
    var k := identify(x);
    var ids := Ids(init, identify);
    IdsSnoc(init, identify, x);
    FirstOccurrencesSnoc(ids, k);
    if k in ids {
      SeenIdStep(init, identify, x);
    } else {
      NewIdStep(init, identify, x);
    }
  }

  /** An item whose id was seen before joins an existing group. */
  lemma SeenIdStep<T, ID>(init: seq<T>, identify: T -> ID, x: T)
    requires identify(x) in Ids(init, identify)
    requires multiset(Flatten(GroupsOver(init, identify, FirstOccurrences(Ids(init, identify))))) == multiset(init)
    ensures multiset(Flatten(GroupsOver(init + [x], identify, FirstOccurrences(Ids(init, identify))))) == multiset(init + [x])
  {
    var ids := Ids(init, identify);
    var keys := FirstOccurrences(ids);
    var m :| 0 <= m < |init| && ids[m] == identify(x);
    assert identify(x) in keys;
    FlattenSnoc(init, identify, keys, x);
  }

  /** An item with a new id forms a group of its own, after the others. */
  lemma NewIdStep<T, ID>(init: seq<T>, identify: T -> ID, x: T)
    requires identify(x) !in Ids(init, identify)
    requires multiset(Flatten(GroupsOver(init, identify, FirstOccurrences(Ids(init, identify))))) == multiset(init)
    ensures multiset(Flatten(GroupsOver(init + [x], identify, FirstOccurrences(Ids(init, identify)) + [identify(x)]))) == multiset(init + [x])
  {
    var k := identify(x);
    var keys := FirstOccurrences(Ids(init, identify));
    assert k !in keys;
    FlattenSnoc(init, identify, keys, x);
    var grown := Flatten(GroupsOver(init + [x], identify, keys));
    assert multiset(grown) == multiset(init);
    GroupsOverSnoc(init + [x], identify, keys, k);
    MembersSnoc(init, identify, k, x);
    MembersPresent(init, identify, k);
    assert Members(init + [x], identify, k) == [x];
    assert multiset(grown + [x]) == multiset(grown) + multiset{x};
  }

  /** Every item lands in exactly one group: the groups' values are a
      permutation of the items. */
  lemma GroupedPartition<T, ID>(items: seq<T>, identify: T -> ID)
    ensures multiset(Flatten(Grouped(items, identify))) == multiset(items)
    ensures |Flatten(Grouped(items, identify))| == |items|
  {
    FlattenFirstSeen(items, identify);
    assert |multiset(Flatten(Grouped(items, identify)))| == |Flatten(Grouped(items, identify))|;
  }

  /** An item's group is the one whose id is `identify(item)`, and the item is
      among its values. */
  lemma ItemInItsGroup<T, ID>(items: seq<T>, identify: T -> ID, i: nat) returns (j: nat)
    requires i < |items|
    ensures j < |Grouped(items, identify)|
    ensures Grouped(items, identify)[j].id == identify(items[i])
    ensures items[i] in Grouped(items, identify)[j].values
  {
    var ids := Ids(items, identify);
    var keys := FirstOccurrences(ids);
    assert ids[i] in ids;
    j :| 0 <= j < |keys| && keys[j] == identify(items[i]);
    MembersHas(items, identify, i);
  }

  lemma {:induction false} MembersHas<T, ID>(items: seq<T>, identify: T -> ID, i: nat)
    requires i < |items|
    ensures items[i] in Members(items, identify, identify(items[i]))
  {
    var init := items[..|items| - 1];
    if i < |items| - 1 {
      MembersHas(init, identify, i);
    }
  }

  lemma {:induction false} IndexOfSnoc<K>(s: seq<K>, x: K, e: K)
    requires e in s
    ensures IndexOf(s + [x], e) == IndexOf(s, e)
  {
    if s[0] != e {
      assert (s + [x])[1..] == s[1..] + [x];
      IndexOfSnoc(s[1..], x, e);
    }
  }

  /** Groups come out in the order in which their ids are first seen among the items. */
  lemma {:induction false} FirstOccurrencesOrder<K>(s: seq<K>, a: nat, b: nat)
    requires a < b < |FirstOccurrences(s)|
    ensures IndexOf(s, FirstOccurrences(s)[a]) < IndexOf(s, FirstOccurrences(s)[b])
  {
    var init := s[..|s| - 1];
    var x := s[|s| - 1];
    assert s == init + [x];
    var r := FirstOccurrences(s);
    var d := FirstOccurrences(init);
    assert r[a] in init;
    IndexOfSnoc(init, x, r[a]);
    if b < |d| {
      FirstOccurrencesOrder(init, a, b);
      IndexOfSnoc(init, x, r[b]);
    } else {
      assert r[b] == x && x !in init;
    }
  }

  lemma GroupsInFirstSeenOrder<T, ID>(items: seq<T>, identify: T -> ID, a: nat, b: nat)
    requires a < b < |Grouped(items, identify)|
    ensures IndexOf(Ids(items, identify), Grouped(items, identify)[a].id) <
            IndexOf(Ids(items, identify), Grouped(items, identify)[b].id)
  {
    FirstOccurrencesOrder(Ids(items, identify), a, b);
  }

  /** After the items `done`, the JavaScript `Map` of `aggregateBy` has the
      keys `order`, in insertion order, and each key's array holds its members. */
  ghost predicate Tracks<T, ID>(done: seq<T>, identify: T -> ID, order: seq<ID>, aggregates: map<ID, seq<T>>)
  {
    && order == FirstOccurrences(Ids(done, identify))
    && aggregates.Keys == (set k | k in order)
    && (forall j :: 0 <= j < |order| ==> aggregates[order[j]] == Members(done, identify, order[j]))
  }

  /** An id has an entry in the `Map` exactly when some item seen has that id. */
  lemma KeyTracked<T, ID>(done: seq<T>, identify: T -> ID, order: seq<ID>, aggregates: map<ID, seq<T>>, id: ID)
    requires Tracks(done, identify, order, aggregates)
    ensures id in aggregates <==> id in Ids(done, identify)
  {
    if id in order {
      var j :| 0 <= j < |order| && order[j] == id;
    }
    if id in Ids(done, identify) {
      var j :| 0 <= j < |done| && Ids(done, identify)[j] == id;
    }
  }

  /** One iteration of the `for…of` loop keeps the `Map` in step with the items seen. */
  lemma TracksStep<T, ID>(done: seq<T>, identify: T -> ID, order: seq<ID>, aggregates: map<ID, seq<T>>, x: T)
    requires Tracks(done, identify, order, aggregates)
    ensures var id := identify(x);
      Tracks(done + [x], identify,
             if id in aggregates then order else order + [id],
             aggregates[id := (if id in aggregates then aggregates[id] else []) + [x]])
  {
    if identify(x) in aggregates {
      TracksHit(done, identify, order, aggregates, x);
    } else {
      TracksNew(done, identify, order, aggregates, x);
    }
  }

  /** An item whose id is already a key is pushed onto that key's array. */
  lemma TracksHit<T, ID>(done: seq<T>, identify: T -> ID, order: seq<ID>, aggregates: map<ID, seq<T>>, x: T)
    requires Tracks(done, identify, order, aggregates)
    requires identify(x) in aggregates
    ensures Tracks(done + [x], identify, order, aggregates[identify(x) := aggregates[identify(x)] + [x]])
  {
    var id := identify(x);
    KeyTracked(done, identify, order, aggregates, id);
    IdsSnoc(done, identify, x);
    FirstOccurrencesSnoc(Ids(done, identify), id);
    var updated := aggregates[id := aggregates[id] + [x]];
    assert updated.Keys == aggregates.Keys;
    forall j | 0 <= j < |order|
      ensures updated[order[j]] == Members(done + [x], identify, order[j])
    {
      MembersSnoc(done, identify, order[j], x);
    }
  }

  /** An item with a new id adds that id as the last key, with a one-item array. */
  lemma TracksNew<T, ID>(done: seq<T>, identify: T -> ID, order: seq<ID>, aggregates: map<ID, seq<T>>, x: T)
    requires Tracks(done, identify, order, aggregates)
    requires identify(x) !in aggregates
    ensures Tracks(done + [x], identify, order + [identify(x)], aggregates[identify(x) := [x]])
  {
    var id := identify(x);
    KeyTracked(done, identify, order, aggregates, id);
    IdsSnoc(done, identify, x);
    FirstOccurrencesSnoc(Ids(done, identify), id);
    MembersPresent(done, identify, id);
    var longer := order + [id];
    var updated := aggregates[id := [x]];
    assert updated.Keys == (set k | k in longer);
    forall j | 0 <= j < |longer|
      ensures updated[longer[j]] == Members(done + [x], identify, longer[j])
    {
      MembersSnoc(done, identify, longer[j], x);
    }
  }

  lemma TracksNext<T, ID>(items: seq<T>, identify: T -> ID, i: nat, order: seq<ID>, aggregates: map<ID, seq<T>>)
    requires i < |items|
    requires Tracks(items[..i], identify, order, aggregates)
    ensures var id := identify(items[i]);
      Tracks(items[..i + 1], identify,
             if id in aggregates then order else order + [id],
             aggregates[id := (if id in aggregates then aggregates[id] else []) + [items[i]]])
  {
    PrefixSnoc(items, i);
    TracksStep(items[..i], identify, order, aggregates, items[i]);
  }

  lemma PrefixSnoc<T>(s: seq<T>, i: nat)
    requires i < |s|
    ensures s[..i + 1] == s[..i] + [s[i]]
  {
  }

  /** `aggregateBy(items, identify)`. A JavaScript `Map` keeps its keys in
      insertion order; here that order is `order` and the arrays are `aggregates`. */
  method AggregateBy<T, ID(==)>(items: seq<T>, identify: T -> ID) returns (groups: seq<Aggregated<ID, T>>)
    ensures groups == Grouped(items, identify)
  {
    var order: seq<ID> := [];
    var aggregates: map<ID, seq<T>> := map[];
    for i := 0 to |items|
      invariant Tracks(items[..i], identify, order, aggregates)
    {
      var id := identify(items[i]);
      var aggregated := if id in aggregates then aggregates[id] else [];
      TracksNext(items, identify, i, order, aggregates);
      if id !in aggregates {
        order := order + [id];
      }
      aggregates := aggregates[id := aggregated + [items[i]]];
    }
    assert items[..|items|] == items;
    groups := seq(|order|, j requires 0 <= j < |order| => Aggregated(order[j], aggregates[order[j]]));
  }

  // ---------------------------------------------------------------------------
  // Worked examples

  /** Asking for ids 1, 2, 3, 4 of a `load` that finds only 3, 1, 2 (in that
      order, without a hook) gives [1, 2, 3, null]. */
  lemma AlignExample()
    ensures Align<int, int, Exception>([1, 2, 3, 4], [30, 10, 20], (v: int) => v / 10, None) ==
      [Found(10), Found(20), Found(30), Null]
  {
    var locations := Locations([30, 10, 20], (v: int) => v / 10);
    assert locations == [3, 1, 2];
  }

  // ---------------------------------------------------------------------------
  // create

  /** Stands for the `DataLoader` that `create` builds around `#load`: the
      handle records the factory instance and the context; the batch function
      itself is not represented. */
  class DataLoader {
    const factory: Ref
    const context: ExecutionContext

    constructor (factory: Ref, context: ExecutionContext)
      ensures this.factory == factory && this.context == context
    {
      this.factory := factory;
      this.context := context;
    }
  }

  /** `factory.create(context)`: a new loader on every call. */
  method Create(factory: Ref, context: ExecutionContext) returns (loader: DataLoader)
    ensures fresh(loader)
    ensures loader.factory == factory && loader.context == context
  {
    loader := new DataLoader(factory, context);
  }
}
