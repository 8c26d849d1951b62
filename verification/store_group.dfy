/**
 * `storeGroup(group, factory, factoryProps)` (src/utils/storeGroup.js): one
 * store per key of a group object, the combined `state` of their latest
 * values, and subscribers told of every change.
 *
 * The stores the factory makes are not modelled: a store is named by its key
 * and the `set` or `init` call that created it. Each keeps the store
 * contract: subscribing to it calls the subscriber at once with the value the
 * store was made with, and every later value it publishes is the `StoreEmits`
 * event. Subscriber functions are numbered; a call of one is logged with the
 * state it was given. A group object is its list of own entries, in
 * `Object.entries` order.
 */
module StoreGroup {
  import opened JsValue

  /** A store: the `set`/`init` generation that made it, its first value, and every `store.set(value, options)`. */
  datatype Store = Store(gen: nat, initial: Value, sets: seq<(Value, Value)>)

  /** Which store a subscription belongs to. */
  datatype StoreRef = StoreRef(key: string, gen: nat)

  /** A subscriber call `fn(state)`. */
  datatype Call = Call(fn: nat, state: map<string, Value>)

  /** A group object's own entries, in order. */
  type Entries = seq<(string, Value)>

  datatype Group = Group(
    stores: map<string, Store>,
    live: set<StoreRef>,          // store subscriptions not yet unsubscribed
    state: map<string, Value>,
    subs: seq<nat>,
    gen: nat,                     // the generation the next created stores get
    calls: seq<Call>)             // every subscriber call, in order

  datatype Event =
    | Set(group: Entries, options: Value)
    | Subscribe(fn: nat)
    | Unsubscribe(fn: nat)        // the function `subscribe(fn)` returned
    | StoreEmits(store: StoreRef, value: Value)
    | Destroy                     // `unsubscribe`

  function KeysOf(group: Entries): set<string> {
    set i | 0 <= i < |group| :: group[i].0
  }

  /** The keys of an object are distinct. */
  predicate DistinctKeys(group: Entries) {
    forall i, j :: 0 <= i < j < |group| ==> group[i].0 != group[j].0
  }

  function Refs(stores: map<string, Store>): set<StoreRef> {
    set k | k in stores :: StoreRef(k, stores[k].gen)
  }

  predicate Inv(g: Group) {
    && g.live == Refs(g.stores)
    && forall k :: k in g.stores ==> g.stores[k].gen < g.gen
  }

  /** The invariant while a `set` runs: the stores it creates have the current generation. */
  predicate Building(g: Group) {
    && g.live == Refs(g.stores)
    && forall k :: k in g.stores ==> g.stores[k].gen <= g.gen
  }

  /** The calls `subs.forEach((fn) => fn(state))` makes. */
  function Notify(subs: seq<nat>, state: map<string, Value>): (r: seq<Call>)
    ensures |r| == |subs| && forall i :: 0 <= i < |subs| ==> r[i] == Call(subs[i], state)
  {
    if |subs| == 0 then [] else [Call(subs[0], state)] + Notify(subs[1..], state)
  }

  /**
   * `createStore(key, value)`: a store of the current generation, subscribed
   * to at once; its first call writes `state[key]` and tells every subscriber.
   */
  function CreateStore(g: Group, k: string, v: Value): Group {
    var state := g.state[k := v];
    g.(stores := g.stores[k := Store(g.gen, v, [])], live := g.live + {StoreRef(k, g.gen)},
       state := state, calls := g.calls + Notify(g.subs, state))
  }

  /** `Object.entries(group).forEach(([key, value]) => createStore(key, value))`. */
  function CreateAll(g: Group, group: Entries): Group
    decreases |group|
  {
    if |group| == 0 then g else CreateAll(CreateStore(g, group[0].0, group[0].1), group[1..])
  }

  lemma RefsAdd(stores: map<string, Store>, k: string, s: Store)
    requires k !in stores || stores[k].gen == s.gen
    ensures Refs(stores[k := s]) == Refs(stores) + {StoreRef(k, s.gen)}
  {
    var m := stores[k := s];
    forall ref | ref in Refs(m) ensures ref in Refs(stores) + {StoreRef(k, s.gen)} {
      var x :| x in m && ref == StoreRef(x, m[x].gen);
      if x != k { assert StoreRef(x, stores[x].gen) in Refs(stores); }
    }
    forall ref | ref in Refs(stores) ensures ref in Refs(m) {
      var x :| x in stores && ref == StoreRef(x, stores[x].gen);
      assert StoreRef(x, m[x].gen) in Refs(m);
    }
    assert StoreRef(k, m[k].gen) in Refs(m);
  }

  lemma RefsSameGen(stores: map<string, Store>, k: string, s: Store)
    requires k in stores && stores[k].gen == s.gen
    ensures Refs(stores[k := s]) == Refs(stores)
  {
    RefsAdd(stores, k, s);
  }

  lemma {:induction false} CreateAllBuilds(g: Group, group: Entries)
    requires g.live == Refs(g.stores) && (forall k :: k in g.stores ==> g.stores[k].gen == g.gen) && g.subs == []
    ensures var r := CreateAll(g, group);
      && r.live == Refs(r.stores) && (forall k :: k in r.stores ==> r.stores[k].gen == g.gen)
      && r.gen == g.gen && r.subs == [] && r.calls == g.calls
    decreases |group|
  {
    if |group| > 0 {
      var g1 := CreateStore(g, group[0].0, group[0].1);
      RefsAdd(g.stores, group[0].0, Store(g.gen, group[0].1, []));
      assert g1.calls == g.calls;
      CreateAllBuilds(g1, group[1..]);
    }
  }

  lemma {:induction false} CreateAllKeys(g: Group, group: Entries)
    ensures var r := CreateAll(g, group);
      && r.stores.Keys == g.stores.Keys + KeysOf(group)
      && r.state.Keys == g.state.Keys + KeysOf(group)
    decreases |group|
  {
    if |group| > 0 {
      KeysOfCons(group);
      CreateAllKeys(CreateStore(g, group[0].0, group[0].1), group[1..]);
    }
  }

  lemma {:induction false} CreateAllValues(g: Group, group: Entries)
    requires DistinctKeys(group)
    ensures var r := CreateAll(g, group);
      forall i :: 0 <= i < |group| ==>
        && group[i].0 in r.stores && r.stores[group[i].0] == Store(g.gen, group[i].1, [])
        && group[i].0 in r.state && r.state[group[i].0] == group[i].1
    decreases |group|
  {
    if |group| > 0 {
      var k, v := group[0].0, group[0].1;
      var g1 := CreateStore(g, k, v);
      var rest := group[1..];
      DistinctRest(group);
      CreateAllValues(g1, rest);
      CreateAllKeys(g1, rest);
      CreateAllFrame(g1, rest, k);
      var r := CreateAll(g1, rest);
      forall i | 0 <= i < |group|
        ensures group[i].0 in r.stores && r.stores[group[i].0] == Store(g.gen, group[i].1, [])
        ensures group[i].0 in r.state && r.state[group[i].0] == group[i].1
      {
        if i > 0 { assert rest[i - 1] == group[i]; }
      }
    }
  }

  /** Creating the stores of other keys leaves a key's store and state alone. */
  lemma {:induction false} CreateAllFrame(g: Group, group: Entries, k: string)
    requires k !in KeysOf(group)
    ensures var r := CreateAll(g, group);
      && (k in g.stores ==> k in r.stores && r.stores[k] == g.stores[k])
      && (k in g.state ==> k in r.state && r.state[k] == g.state[k])
    decreases |group|
  {
    if |group| > 0 {
      KeysOfCons(group);
      CreateAllFrame(CreateStore(g, group[0].0, group[0].1), group[1..], k);
    }
  }

  /** The rest of an object's entries has distinct keys, none the first one's. */
  lemma DistinctRest(group: Entries)
    requires |group| > 0 && DistinctKeys(group)
    ensures DistinctKeys(group[1..]) && group[0].0 !in KeysOf(group[1..])
  {
    var rest := group[1..];
    forall i, j | 0 <= i < j < |rest| ensures rest[i].0 != rest[j].0 {
      assert rest[i] == group[i + 1] && rest[j] == group[j + 1];
    }
    forall i | 0 <= i < |rest| ensures rest[i].0 != group[0].0 { assert rest[i] == group[i + 1]; }
  }

  /**
   * `init()` on a new group: a store for every key, whose first value fills
   * the state. No one is subscribed yet, so no one is called.
   */
  function Create(group: Entries): (g: Group)
    ensures Inv(g)
    ensures g.stores.Keys == KeysOf(group) && g.state.Keys == KeysOf(group)
    ensures DistinctKeys(group) ==> forall i :: 0 <= i < |group| ==>
      g.stores[group[i].0] == Store(0, group[i].1, []) && g.state[group[i].0] == group[i].1
    ensures g.subs == [] && g.calls == []
  {
    var g0 := Group(map[], {}, map[], [], 0, []);
    CreateAllBuilds(g0, group);
    CreateAllKeys(g0, group);
    var g := CreateAll(g0, group).(gen := 1);
    if DistinctKeys(group) then CreateAllValues(g0, group); g else g
  }

  /** `subs.filter((sub) => sub === fn)`, as written: only `fn` is kept. */
  function KeepOnly(subs: seq<nat>, fn: nat): (r: seq<nat>)
    ensures forall i :: 0 <= i < |r| ==> r[i] == fn
    ensures multiset(r)[fn] == multiset(subs)[fn]
  {
    if |subs| == 0 then []
    else
      assert subs == [subs[0]] + subs[1..];
      (if subs[0] == fn then [fn] else []) + KeepOnly(subs[1..], fn)
  }

  /**
   * `groupKeys.forEach(...)`: a key without a store gets one, made with its
   * value; then every key's store is set to its value with the options.
   */
  function Update(g: Group, group: Entries, options: Value): Group
    decreases |group|
  {
    if |group| == 0 then g
    else
      var k, v := group[0].0, group[0].1;
      var g1 := if k in g.stores then g else CreateStore(g, k, v);
      var s := g1.stores[k];
      Update(g1.(stores := g1.stores[k := s.(sets := s.sets + [(v, options)])]), group[1..], options)
  }

  /** `set(group, options)`: the stores of keys the group lacks go, then the group's keys are updated. */
  function SetGroup(g: Group, group: Entries, options: Value): Group {
    Update(Pruned(g, group), group, options).(gen := g.gen + 1)
  }

  function Step(g: Group, e: Event): Group {
    match e
    case Set(group, options) => SetGroup(g, group, options)
    case Subscribe(fn) => g.(subs := g.subs + [fn], calls := g.calls + [Call(fn, g.state)])
    case Unsubscribe(fn) => g.(subs := KeepOnly(g.subs, fn))
    case StoreEmits(ref, v) =>
      if ref !in g.live then g
      else
        var state := g.state[ref.key := v];
        g.(state := state, calls := g.calls + Notify(g.subs, state))
    case Destroy => g.(stores := map[], live := g.live - Refs(g.stores))
  }

  lemma KeysOfCons(group: Entries)
    requires |group| > 0
    ensures KeysOf(group) == {group[0].0} + KeysOf(group[1..])
  {
    forall x | x in KeysOf(group) ensures x in {group[0].0} + KeysOf(group[1..]) {
      var i :| 0 <= i < |group| && group[i].0 == x;
      if i > 0 { assert group[1..][i - 1].0 == x; }
    }
    forall x | x in KeysOf(group[1..]) ensures x in KeysOf(group) {
      var i :| 0 <= i < |group[1..]| && group[1..][i].0 == x;
      assert group[i + 1].0 == x;
    }
  }

  /** The first step of `Update`: the store of `group[0]`, created if missing, is set. */
  function UpdateOne(g: Group, k: string, v: Value, options: Value): Group {
    var g1 := if k in g.stores then g else CreateStore(g, k, v);
    var s := g1.stores[k];
    g1.(stores := g1.stores[k := s.(sets := s.sets + [(v, options)])])
  }

  lemma UpdateUnfold(g: Group, group: Entries, options: Value)
    requires |group| > 0
    ensures Update(g, group, options) == Update(UpdateOne(g, group[0].0, group[0].1, options), group[1..], options)
  {
  }

  lemma {:induction false} UpdateAppend(g: Group, a: Entries, b: Entries, options: Value)
    ensures Update(g, a + b, options) == Update(Update(g, a, options), b, options)
    decreases |a|
  {
    if |a| > 0 {
      assert (a + b)[1..] == a[1..] + b;
      UpdateUnfold(g, a + b, options);
      UpdateUnfold(g, a, options);
      UpdateAppend(UpdateOne(g, a[0].0, a[0].1, options), a[1..], b, options);
    } else {
      assert a + b == b;
    }
  }

  lemma {:induction false} UpdateBuilding(g: Group, group: Entries, options: Value)
    requires Building(g)
    ensures var r := Update(g, group, options);
      Building(r) && r.gen == g.gen && r.subs == g.subs && g.calls <= r.calls
    decreases |group|
  {
    if |group| > 0 {
      var k, v := group[0].0, group[0].1;
      var g1 := if k in g.stores then g else CreateStore(g, k, v);
      if k !in g.stores { RefsAdd(g.stores, k, Store(g.gen, v, [])); }
      var s := g1.stores[k];
      RefsSameGen(g1.stores, k, s.(sets := s.sets + [(v, options)]));
      var g2 := UpdateOne(g, k, v, options);
      assert g.calls <= g2.calls;
      UpdateUnfold(g, group, options);
      UpdateBuilding(g2, group[1..], options);
    }
  }

  /** What `Update` does to the stores, for distinct keys. */
  lemma {:induction false} UpdateStores(g: Group, group: Entries, options: Value)
    requires DistinctKeys(group)
    ensures var r := Update(g, group, options);
      && r.stores.Keys == g.stores.Keys + KeysOf(group)
      && (forall k :: k in g.stores && k !in KeysOf(group) ==> r.stores[k] == g.stores[k])
      && (forall i :: 0 <= i < |group| && group[i].0 in g.stores ==>
            var s := g.stores[group[i].0]; r.stores[group[i].0] == s.(sets := s.sets + [(group[i].1, options)]))
      && (forall i :: 0 <= i < |group| && group[i].0 !in g.stores ==>
            r.stores[group[i].0] == Store(g.gen, group[i].1, [(group[i].1, options)]))
    decreases |group|
  {
    if |group| > 0 {
      var k, v := group[0].0, group[0].1;
      var g2 := UpdateOne(g, k, v, options);
      UpdateUnfold(g, group, options);
      KeysOfCons(group);
      var rest := group[1..];
      DistinctRest(group);
      UpdateStores(g2, rest, options);
      var r := Update(g2, rest, options);
      forall i | 0 <= i < |group|
        ensures group[i].0 in g.stores ==>
          var s := g.stores[group[i].0]; r.stores[group[i].0] == s.(sets := s.sets + [(group[i].1, options)])
        ensures group[i].0 !in g.stores ==> r.stores[group[i].0] == Store(g.gen, group[i].1, [(group[i].1, options)])
      {
        if i > 0 {
          assert rest[i - 1] == group[i];
          assert group[i].0 != k;
        }
      }
    }
  }

  /** What `Update` does to the state, for distinct keys: only keys without a store get their value. */
  lemma {:induction false} UpdateState(g: Group, group: Entries, options: Value)
    requires DistinctKeys(group)
    ensures var r := Update(g, group, options);
      && r.state.Keys == g.state.Keys + (KeysOf(group) - g.stores.Keys)
      && (forall k :: k in g.state && (k in g.stores || k !in KeysOf(group)) ==> r.state[k] == g.state[k])
      && (forall i :: 0 <= i < |group| && group[i].0 !in g.stores ==> r.state[group[i].0] == group[i].1)
    decreases |group|
  {
    if |group| > 0 {
      var k, v := group[0].0, group[0].1;
      var g2 := UpdateOne(g, k, v, options);
      UpdateUnfold(g, group, options);
      KeysOfCons(group);
      var rest := group[1..];
      DistinctRest(group);
      assert g2.stores.Keys == g.stores.Keys + {k};
      UpdateState(g2, rest, options);
      var r := Update(g2, rest, options);
      forall i | 0 <= i < |group| && group[i].0 !in g.stores
        ensures r.state[group[i].0] == group[i].1
      {
        if i > 0 {
          assert rest[i - 1] == group[i];
        }
      }
    }
  }

  /** `Update` of keys that all have stores only sets them: the state stays and no one is called. */
  lemma {:induction false} UpdateExistingIsQuiet(g: Group, group: Entries, options: Value)
    requires KeysOf(group) <= g.stores.Keys
    ensures var r := Update(g, group, options);
      r.state == g.state && r.calls == g.calls && r.subs == g.subs && r.stores.Keys == g.stores.Keys
    decreases |group|
  {
    if |group| > 0 {
      UpdateUnfold(g, group, options);
      KeysOfCons(group);
      UpdateExistingIsQuiet(UpdateOne(g, group[0].0, group[0].1, options), group[1..], options);
    }
  }

  /** The stores of `set` before `Update`: the group's keys that had a store. */
  function Pruned(g: Group, group: Entries): Group {
    var keys := KeysOf(group);
    var dropped := set k | k in g.stores && k !in keys :: StoreRef(k, g.stores[k].gen);
    g.(stores := map k | k in g.stores && k in keys :: g.stores[k],
       live := g.live - dropped,
       state := map k | k in g.state && !(k in g.stores && k !in keys) :: g.state[k])
  }

  lemma PrunedBuilds(g: Group, group: Entries)
    requires Inv(g)
    ensures Building(Pruned(g, group))
  {
    var p := Pruned(g, group);
    forall ref | ref in p.live ensures ref in Refs(p.stores) {
      assert ref.key in p.stores && StoreRef(ref.key, p.stores[ref.key].gen) == ref;
    }
    forall ref | ref in Refs(p.stores) ensures ref in p.live {
      assert StoreRef(ref.key, g.stores[ref.key].gen) in g.live;
    }
  }

  lemma StepPreservesInv(g: Group, e: Event)
    requires Inv(g)
    ensures Inv(Step(g, e))
  {
    if e.Set? {
      PrunedBuilds(g, e.group);
      UpdateBuilding(Pruned(g, e.group), e.group, e.options);
    }
  }

  /**
   * After `set(group, options)` the stores are exactly the group's keys;
   * stores of kept keys are reused and set to the new value; a new key gets a
   * new store whose subscribe-time call wrote its value into the state.
   */
  lemma SetReconciles(g: Group, group: Entries, options: Value)
    requires Inv(g) && DistinctKeys(group)
    ensures var r := Step(g, Set(group, options));
      && r.stores.Keys == KeysOf(group)
      && (forall i :: 0 <= i < |group| && group[i].0 in g.stores ==>
            var s := g.stores[group[i].0];
            r.stores[group[i].0] == s.(sets := s.sets + [(group[i].1, options)])
            && (group[i].0 in g.state ==> group[i].0 in r.state && r.state[group[i].0] == g.state[group[i].0]))
      && (forall i :: 0 <= i < |group| && group[i].0 !in g.stores ==>
            && r.stores[group[i].0] == Store(g.gen, group[i].1, [(group[i].1, options)])
            && StoreRef(group[i].0, g.gen) in r.live
            && group[i].0 in r.state && r.state[group[i].0] == group[i].1)
  {
    var p := Pruned(g, group);
    PrunedBuilds(g, group);
    UpdateBuilding(p, group, options);
    UpdateStores(p, group, options);
    UpdateState(p, group, options);
    var r := Step(g, Set(group, options));
    forall i | 0 <= i < |group| && group[i].0 !in g.stores
      ensures StoreRef(group[i].0, g.gen) in r.live
    {
      assert StoreRef(group[i].0, r.stores[group[i].0].gen) in Refs(r.stores);
    }
  }

  /** Keys dropped by `set` leave the state, and their stores' subscriptions end. */
  lemma SetDropsKeys(g: Group, group: Entries, options: Value, k: string)
    requires Inv(g) && k in g.stores && k !in KeysOf(group)
    ensures var r := Step(g, Set(group, options));
      && k !in r.state
      && StoreRef(k, g.stores[k].gen) !in r.live
      && Step(r, StoreEmits(StoreRef(k, g.stores[k].gen), Undefined)) == r
  {
    var p := Pruned(g, group);
    PrunedBuilds(g, group);
    UpdateBuilding(p, group, options);
    UpdateStoresKeys(p, group, options);
  }

  /** `Update` never adds a store or a state entry outside the group's keys. */
  lemma {:induction false} UpdateStoresKeys(g: Group, group: Entries, options: Value)
    ensures var r := Update(g, group, options);
      r.stores.Keys <= g.stores.Keys + KeysOf(group) && r.state.Keys <= g.state.Keys + KeysOf(group)
    decreases |group|
  {
    if |group| > 0 {
      UpdateUnfold(g, group, options);
      KeysOfCons(group);
      UpdateStoresKeys(UpdateOne(g, group[0].0, group[0].1, options), group[1..], options);
    }
  }

  /** A `set` of keys that all have stores calls no subscriber: their new values arrive as separate store events. */
  lemma SetOfKeptKeysIsQuiet(g: Group, group: Entries, options: Value)
    requires Inv(g) && KeysOf(group) <= g.stores.Keys
    ensures var r := Step(g, Set(group, options));
      && r.calls == g.calls
      && r.state.Keys <= g.state.Keys
      && forall k :: k in r.state ==> r.state[k] == g.state[k]
  {
    UpdateExistingIsQuiet(Pruned(g, group), group, options);
  }

  /**
   * A `set` that brings one new key calls every subscriber once, in order,
   * with the new state, which holds the new key's value.
   */
  lemma SetOfNewKeyNotifies(g: Group, group: Entries, options: Value, n: nat)
    requires Inv(g) && 0 <= n < |group| && group[n].0 !in g.stores
    requires forall i :: 0 <= i < |group| && i != n ==> group[i].0 in g.stores
    ensures var r := Step(g, Set(group, options));
      && r.calls == g.calls + Notify(g.subs, r.state)
      && group[n].0 in r.state && r.state[group[n].0] == group[n].1
  {
    var p := Pruned(g, group);
    var k, v := group[n].0, group[n].1;
    PrunedKeepsOthers(g, group, n);
    UpdateAround(p, group, options, n);
    var g1 := Update(p, group[..n], options);
    UpdateExistingIsQuiet(p, group[..n], options);
    var g2 := UpdateOne(g1, k, v, options);
    assert g2.calls == g1.calls + Notify(g1.subs, g2.state);
    UpdateExistingIsQuiet(g2, group[n + 1..], options);
  }

  /** `Update` of a group is `Update` of the keys before `n`, the step for key `n`, then the keys after it. */
  lemma UpdateAround(g: Group, group: Entries, options: Value, n: nat)
    requires n < |group|
    ensures Update(g, group, options)
      == Update(UpdateOne(Update(g, group[..n], options), group[n].0, group[n].1, options), group[n + 1..], options)
  {
    assert group == group[..n] + ([group[n]] + group[n + 1..]);
    UpdateAppend(g, group[..n], [group[n]] + group[n + 1..], options);
    UpdateUnfold(Update(g, group[..n], options), [group[n]] + group[n + 1..], options);
    assert ([group[n]] + group[n + 1..])[1..] == group[n + 1..];
  }

  /** Before the `Update`, every key of the group but key `n` has a store, and key `n` has none. */
  lemma PrunedKeepsOthers(g: Group, group: Entries, n: nat)
    requires 0 <= n < |group| && group[n].0 !in g.stores
    requires forall i :: 0 <= i < |group| && i != n ==> group[i].0 in g.stores
    ensures var p := Pruned(g, group);
      && group[n].0 !in p.stores
      && KeysOf(group[..n]) <= p.stores.Keys
      && KeysOf(group[n + 1..]) <= p.stores.Keys + {group[n].0}
      && p.calls == g.calls && p.subs == g.subs
  {
    var p := Pruned(g, group);
    forall x | x in KeysOf(group[..n]) ensures x in p.stores {
      var i :| 0 <= i < n && group[..n][i].0 == x;
      assert group[i].0 == x && x in KeysOf(group);
    }
    forall x | x in KeysOf(group[n + 1..]) ensures x in p.stores {
      var i :| 0 <= i < |group| - n - 1 && group[n + 1..][i].0 == x;
      assert group[n + 1 + i].0 == x && x in KeysOf(group);
    }
  }

  /** `subscribe(fn)` registers `fn` and calls it at once with the current state. */
  lemma SubscribeCallsAtOnce(g: Group, fn: nat)
    ensures var r := Step(g, Subscribe(fn));
      && r.subs == g.subs + [fn]
      && r.calls == g.calls + [Call(fn, g.state)]
  {
  }

  /** A live store's new value is written to the state, then every subscriber is called with it, in order. */
  lemma EmitNotifiesAll(g: Group, ref: StoreRef, v: Value)
    requires ref in g.live
    ensures var r := Step(g, StoreEmits(ref, v));
      && r.state == g.state[ref.key := v]
      && |r.calls| == |g.calls| + |g.subs|
      && r.calls[..|g.calls|] == g.calls
      && forall i :: 0 <= i < |g.subs| ==> r.calls[|g.calls| + i] == Call(g.subs[i], r.state)
  {
  }

  /** `unsubscribe` ends every store subscription and empties the stores but keeps the state. */
  lemma DestroyKeepsState(g: Group, ref: StoreRef, v: Value)
    requires Inv(g)
    ensures var r := Step(g, Destroy);
      && r.stores == map[] && r.live == {} && r.state == g.state && r.subs == g.subs
      && Step(r, StoreEmits(ref, v)) == r
  {
  }

  /** The returned unsubscriber keeps only `fn` itself, so it removes every other subscriber. */
  lemma UnsubscribeKeepsOnlyFn(g: Group, fn: nat, other: nat)
    requires other != fn
    ensures var r := Step(g, Unsubscribe(fn));
      && other !in r.subs
      && multiset(r.subs)[fn] == multiset(g.subs)[fn]
  {
  }
}
