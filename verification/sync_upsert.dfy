/**
 * The `test` sync plug-in (sync/test-upsert-only.js): stores kept in a
 * module-level `storage` object, one store per store key, written only
 * through `upsertTodo`. The clock that names a new entry is a parameter.
 *
 * Property keys are strings: a key that is not a string is converted the way
 * JavaScript converts it (`Show`).
 */
module SyncUpsert {
  import opened Wrappers
  import opened JsValue
  import Text
  import SyncWorker

  /** One store: its property keys and values. */
  type Store = map<string, Value>

  /** The `storage` object: stores by store key. */
  type Storage = map<string, Store>

  datatype Outcome = Outcome(storage: Storage, completion: Completion)

  /** The only route names the plug-in declares; `upsertTodo` is not one of them. */
  const Defined: set<string> := {"getId", "getName", "getProps"}

  /** `loadStore(key)`: the saved store, or a fresh empty one. */
  function LoadStore(storage: Storage, key: string): (r: Store)
    ensures key !in storage ==> r == map[]
    ensures key in storage ==> r == storage[key]
  {
    if key in storage then storage[key] else map[]
  }

  /** `saveStore(key, store)`. */
  function SaveStore(storage: Storage, key: string, store: Store): (r: Storage)
    ensures LoadStore(r, key) == store
    ensures forall k :: k != key ==> LoadStore(r, k) == LoadStore(storage, k)
  {
    storage[key := store]
  }

  /** `const { storeKey = 'default' } = props`, as the key `storage` is indexed with. */
  function StoreKey(props: Value): (r: string)
    requires !IsNullish(props)
    ensures Get(props, "storeKey").value.Undefined? ==> r == "default"
    ensures Get(props, "storeKey").value.Str? ==> r == Get(props, "storeKey").value.s
  {
    var key := Get(props, "storeKey").value;
    if key.Undefined? then "default" else PropertyKey(key)
  }

  function PropertyKey(v: Value): string {
    Show(v)
  }

  /**
   * `upsertTodo(props, id, data)`. Without an id the data is stored under the
   * current time and `{id, url}` is returned; with an id, an entry that is
   * missing or falsy gives false and nothing is saved, and a present entry
   * gets `completed` copied from the data and true is returned.
   */
  function UpsertTodo(storage: Storage, props: Value, id: Value, data: Value, now: nat): (r: Outcome)
    ensures IsNullish(props) ==> r == Outcome(storage, Threw(ReadOfNullish))
  {
    if IsNullish(props) then Outcome(storage, Threw(ReadOfNullish))
    else
      var key := StoreKey(props);
      var store := LoadStore(storage, key);
      if !Truthy(id) then
        var remoteId := Text.NatToString(now);
        Outcome(SaveStore(storage, key, store[remoteId := data]),
                Returned(Obj(map["id" := Str(remoteId), "url" := Str("https://test/foo/bar/" + remoteId)])))
      else
        var k := PropertyKey(id);
        if k !in store || !Truthy(store[k]) then Outcome(storage, Returned(Bool(false)))
        else match Get(data, "completed")
          case Failure(e) => Outcome(storage, Threw(e))
          case Success(completed) =>
            var entry := store[k];
            var updated := if IsObjectLike(entry) then WithFields(entry, Fields(entry)["completed" := completed]) else entry;
            Outcome(SaveStore(storage, key, store[k := updated]), Returned(Bool(true)))
  }

  /** With no id: a new entry under `String(now)` in the props' store, and `{id, url}` naming it. */
  lemma InsertWithoutId(storage: Storage, props: Value, id: Value, data: Value, now: nat)
    requires !IsNullish(props) && !Truthy(id)
    ensures var key := StoreKey(props);
      var remoteId := Text.NatToString(now);
      var r := UpsertTodo(storage, props, id, data, now);
      && LoadStore(r.storage, key) == LoadStore(storage, key)[remoteId := data]
      && (forall k :: k != key ==> LoadStore(r.storage, k) == LoadStore(storage, k))
      && Get(r.completion.value, "id") == Success(Str(remoteId))
      && Get(r.completion.value, "url") == Success(Str("https://test/foo/bar/" + remoteId))
  {
  }

  /** An id with no truthy entry gives false and saves nothing. */
  lemma MissingIdGivesFalse(storage: Storage, props: Value, id: Value, data: Value, now: nat)
    requires !IsNullish(props) && Truthy(id)
    requires var store := LoadStore(storage, StoreKey(props));
      PropertyKey(id) !in store || !Truthy(store[PropertyKey(id)])
    ensures UpsertTodo(storage, props, id, data, now) == Outcome(storage, Returned(Bool(false)))
  {
  }

  /**
   * A present object entry gets only its `completed` field overwritten; the
   * rest of the store and the other stores are as they were.
   */
  lemma PresentIdSetsCompleted(storage: Storage, props: Value, id: Value, data: Value, now: nat)
    requires !IsNullish(props) && Truthy(id) && !IsNullish(data)
    requires var store := LoadStore(storage, StoreKey(props));
      PropertyKey(id) in store && store[PropertyKey(id)].Obj?
    ensures var key := StoreKey(props);
      var before := LoadStore(storage, key);
      var k := PropertyKey(id);
      var r := UpsertTodo(storage, props, id, data, now);
      var after := LoadStore(r.storage, key);
      && r.completion == Returned(Bool(true))
      && after.Keys == before.Keys
      && (forall j :: j in before && j != k ==> after[j] == before[j])
      && after[k].Obj? && after[k].fields.Keys == before[k].fields.Keys + {"completed"}
      && Get(after[k], "completed") == Get(data, "completed")
      && (forall f :: f in before[k].fields && f != "completed" ==> after[k].fields[f] == before[k].fields[f])
      && (forall s :: s != key ==> LoadStore(r.storage, s) == LoadStore(storage, s))
  {
  }

  /** An entry inserted without an id can then be completed through its returned id. */
  lemma InsertThenComplete(storage: Storage, props: Value, data: Value, change: Value, now: nat, later: nat)
    requires !IsNullish(props) && data.Obj? && !IsNullish(change)
    ensures var ins := UpsertTodo(storage, props, Undefined, data, now);
      var id := Get(ins.completion.value, "id").value;
      var upd := UpsertTodo(ins.storage, props, id, change, later);
      var entry := LoadStore(upd.storage, StoreKey(props))[Text.NatToString(now)];
      && upd.completion == Returned(Bool(true))
      && entry == Obj(data.fields["completed" := Get(change, "completed").value])
  {
    InsertWithoutId(storage, props, Undefined, data, now);
    var remoteId := Text.NatToString(now);
    var id := Str(remoteId);
    assert PropertyKey(id) == remoteId;
    var ins := UpsertTodo(storage, props, Undefined, data, now);
    PresentIdSetsCompleted(ins.storage, props, id, change, later);
  }

  /** Through the worker the other three commands reach the stubs, which answer `undefined`. */
  lemma OtherCommandsAreStubs()
    ensures SyncWorker.RouteOf(Defined, "insertTodo") == SyncWorker.Stub
    ensures SyncWorker.RouteOf(Defined, "updateTodo") == SyncWorker.Stub
    ensures SyncWorker.RouteOf(Defined, "deleteTodo") == SyncWorker.Stub
    ensures SyncWorker.RouteOf(Defined, "upsertTodo") == SyncWorker.NoRoute
  {
  }

  /** `getProps()`: one prop, `storeKey`, with an empty value. */
  function Props(): (r: Value)
    ensures Get(r, "storeKey").Success? && Get(r, "storeKey").value.Obj?
  {
    Obj(map["storeKey" := Obj(map["label" := Str("API Key"), "value" := Str("")])])
  }

  /**
   * The store key is the `storeKey` prop itself, not its value: with the
   * plug-in's own props every call uses the store named `"[object Object]"`.
   */
  lemma DefaultPropsStoreKey()
    ensures StoreKey(Props()) == "[object Object]"
  {
  }
}
