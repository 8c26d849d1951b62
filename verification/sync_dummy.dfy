/**
 * The `dummy` sync plug-in (sync/dummy.js): an in-memory `Map` from generated
 * ids to serialised todos, behind an artificial delay read from the props.
 *
 * The clock and the random number that make up a new id are parameters, and
 * so is `JSON.stringify` (`Serialise`; it may give `undefined`). The delay is
 * not waited for: each outcome records the value that was handed to
 * `setTimeout`.
 */
module SyncDummy {
  import opened Wrappers
  import opened JsValue
  import Text
  import SyncWorker

  /** The `store` map: ids to what `JSON.stringify` gave. */
  type Store = map<string, Value>

  type Serialise = Value -> Value

  /** What one plug-in call leaves behind. */
  datatype Outcome = Outcome(store: Store, waited: Option<Value>, completion: Completion)

  /** The plug-in defines all six routes. */
  const Defined: set<string> := SyncWorker.RouteNames

  const PluginId: string := "dummy"
  const PluginName: string := "Dummy"

  /** The documented bounds: an id of 3 to 8 lower-case letters, a name of 3 to 32 characters. */
  lemma IdAndNameBounds()
    ensures 3 <= |PluginId| <= 8 && forall i :: 0 <= i < |PluginId| ==> Text.IsAsciiLower(PluginId[i])
    ensures 3 <= |PluginName| <= 32
  {
  }

  /** `getProps()`: one text prop, `delay`, of 2000 ms. */
  function Props(): (r: Value)
    ensures Delay(r) == Success(Num(2000))
  {
    Obj(map["delay" := Obj(map["label" := Str("Request delay"), "type" := Str("text"), "value" := Num(2000)])])
  }

  /** `const { delay } = props; ... delay.value`. */
  function Delay(props: Value): (r: Result<Value, Value>)
    ensures r.Failure? ==> r.error == ReadOfNullish
    ensures r.Failure? <==> IsNullish(props) || IsNullish(Get(props, "delay").value)
  {
    var delay :- Get(props, "delay");
    Get(delay, "value")
  }

  /** The id `db.insert` makes from `Date.now()` and `Math.round(Math.random() * 1000)`. */
  function NewId(now: nat, random: nat): (id: string)
    ensures |id| >= 2 && forall i :: 0 <= i < |id| ==> Text.IsDigit(id[i])
  {
    Text.NatToString(now) + Text.NatToString(random)
  }

  /** Whether `store.has(id)`: `Map` keys compare by identity, so only a string id can be present. */
  predicate Has(store: Store, id: Value) {
    id.Str? && id.s in store
  }

  /**
   * `insertTodo(props, data)`: after the delay, store the serialised data
   * under a new id and return `{ id }`. The id is never empty, so the
   * `'Something went wrong'` branch cannot be taken.
   */
  function InsertTodo(store: Store, props: Value, data: Value, now: nat, random: nat, serialise: Serialise): (r: Outcome)
    ensures Delay(props).Failure? ==> r == Outcome(store, None, Threw(ReadOfNullish))
    ensures Delay(props).Success? ==>
      var id := NewId(now, random);
      && r.waited == Some(Delay(props).value)
      && r.store == store[id := serialise(data)]
      && r.completion == Returned(Obj(map["id" := Str(id)]))
  {
    match Delay(props)
    case Failure(e) => Outcome(store, None, Threw(e))
    case Success(ms) =>
      var id := NewId(now, random);
      if id == "" then Outcome(store[id := serialise(data)], Some(ms), Threw(NewError("Something went wrong")))
      else Outcome(store[id := serialise(data)], Some(ms), Returned(Obj(map["id" := Str(id)])))
  }

  /** `updateTodo(props, id, data)`: overwrite a present id and return true; an absent one gives false. */
  function UpdateTodo(store: Store, props: Value, id: Value, data: Value, serialise: Serialise): (r: Outcome)
    ensures Delay(props).Failure? ==> r == Outcome(store, None, Threw(ReadOfNullish))
    ensures Delay(props).Success? ==> r.waited == Some(Delay(props).value)
    ensures Delay(props).Success? && !Has(store, id) ==> r.store == store && r.completion == Returned(Bool(false))
    ensures Delay(props).Success? && Has(store, id) ==>
      && r.store.Keys == store.Keys
      && r.store[id.s] == serialise(data)
      && (forall k :: k in store && k != id.s ==> r.store[k] == store[k])
      && r.completion == Returned(Bool(true))
  {
    match Delay(props)
    case Failure(e) => Outcome(store, None, Threw(e))
    case Success(ms) =>
      if !Has(store, id) then Outcome(store, Some(ms), Returned(Bool(false)))
      else Outcome(store[id.s := serialise(data)], Some(ms), Returned(Bool(true)))
  }

  /** `deleteTodo(props, id)`: remove a present id and return true; an absent one gives false. */
  function DeleteTodo(store: Store, props: Value, id: Value): (r: Outcome)
    ensures Delay(props).Failure? ==> r == Outcome(store, None, Threw(ReadOfNullish))
    ensures Delay(props).Success? ==> r.waited == Some(Delay(props).value)
    ensures Delay(props).Success? && !Has(store, id) ==> r.store == store && r.completion == Returned(Bool(false))
    ensures Delay(props).Success? && Has(store, id) ==>
      && r.store.Keys == store.Keys - {id.s}
      && (forall k :: k in r.store ==> r.store[k] == store[k])
      && r.completion == Returned(Bool(true))
  {
    match Delay(props)
    case Failure(e) => Outcome(store, None, Threw(e))
    case Success(ms) =>
      if !Has(store, id) then Outcome(store, Some(ms), Returned(Bool(false)))
      else Outcome(store - {id.s}, Some(ms), Returned(Bool(true)))
  }

  /** Deleting what was just inserted under a new id gives the old store back. */
  lemma InsertThenDelete(store: Store, props: Value, data: Value, now: nat, random: nat, serialise: Serialise)
    requires Delay(props).Success? && NewId(now, random) !in store
    ensures var ins := InsertTodo(store, props, data, now, random, serialise);
      var del := DeleteTodo(ins.store, props, ins.completion.value.fields["id"]);
      && del.store == store
      && del.completion == Returned(Bool(true))
  {
    var id := NewId(now, random);
    assert store[id := serialise(data)] - {id} == store;
  }

  /** An update after an insert replaces the stored value and touches no other id. */
  lemma InsertThenUpdate(store: Store, props: Value, data: Value, data2: Value, now: nat, random: nat, serialise: Serialise)
    requires Delay(props).Success?
    ensures var ins := InsertTodo(store, props, data, now, random, serialise);
      var upd := UpdateTodo(ins.store, props, ins.completion.value.fields["id"], data2, serialise);
      && upd.store == store[NewId(now, random) := serialise(data2)]
      && upd.completion == Returned(Bool(true))
  {
    var id := NewId(now, random);
    assert store[id := serialise(data)][id := serialise(data2)] == store[id := serialise(data2)];
  }
}
