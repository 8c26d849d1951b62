/**
 * The demo page's item bookkeeping (demo.js): restoring a saved state with
 * the migration of the old item format (lines 190-204), the "Clear
 * completed" tray action (lines 48-53) and the remaining-count shown on the
 * toolbar icon (lines 129-161). Items are plain JavaScript values; a thrown
 * error is a `Failure`.
 */
module DemoState {
  import opened Wrappers
  import opened JsValue

  /** `{ value: item.value, isDone: item.done }`. */
  function MigrateItem(item: Value): (r: Result<Value, Value>)
    ensures r.Failure? <==> IsNullish(item)
    ensures r.Success? ==>
      && r.value.Obj? && r.value.fields.Keys == {"value", "isDone"}
      && Get(r.value, "value") == Get(item, "value")
      && Get(r.value, "isDone") == Get(item, "done")
  {
    var value :- Get(item, "value");
    Success(Obj(map["value" := value, "isDone" := Get(item, "done").value]))
  }

  /** `items.map(MigrateItem)`: all or nothing, the first nullish item throws. */
  function MigrateItems(items: seq<Value>): (r: Result<seq<Value>, Value>)
    ensures r.Success? <==> forall i :: 0 <= i < |items| ==> !IsNullish(items[i])
    ensures r.Success? ==> |r.value| == |items|
    ensures r.Success? ==> forall i :: 0 <= i < |items| ==> MigrateItem(items[i]) == Success(r.value[i])
  {
    if |items| == 0 then Success([])
    else
      var first :- MigrateItem(items[0]);
      var rest :- MigrateItems(items[1..]);
      Success([first] + rest)
  }

  /** The `try` body after parsing: migrate when the first item has a boolean `done`. */
  function MigrateOrThrow(state: Value): (r: Result<Value, Value>)
    requires !IsNullish(state)
  {
    var items := Get(state, "items").value;
    if !Truthy(items) then Success(state)
    else
      var first := GetIndex(items, 0).value;
      var done :- Get(first, "done");
      if TypeOf(done) != "boolean" then Success(state)
      else if !items.Arr? then Failure(NotAFunction)
      else
        var migrated :- MigrateItems(items.items);
        if IsObjectLike(state) then Success(WithFields(state, Fields(state)["items" := Arr(migrated)]))
        else Success(state)
  }

  /** The restored state: the caught error leaves the parsed state as it was. */
  function Migrate(state: Value): (r: Value)
    requires !IsNullish(state)
    ensures r != state ==>
      && IsObjectLike(state) && IsObjectLike(r)
      && Fields(r) == Fields(state)["items" := Get(r, "items").value]
      && Get(r, "items").value.Arr?
  {
    match MigrateOrThrow(state)
    case Success(v) => v
    case Failure(_) => state
  }

  /** `JSON.parse(localStorage.getItem('state')) || {}` with `None` for a parse that throws, then migrated. */
  function Restore(parsed: Option<Value>): (r: Value)
    ensures parsed.None? || !Truthy(parsed.value) ==> r == Obj(map[])
  {
    var state := if parsed.Some? && Truthy(parsed.value) then parsed.value else Obj(map[]);
    Migrate(state)
  }

  /**
   * Old-format items (first one with a boolean `done`, none nullish) are
   * rewritten one for one into `{value, isDone}` records.
   */
  lemma MigrationRewritesItems(fields: map<string, Value>, items: seq<Value>)
    requires "items" in fields && fields["items"] == Arr(items) && |items| > 0
    requires Get(items[0], "done").Success? && Get(items[0], "done").value.Bool?
    requires forall i :: 0 <= i < |items| ==> !IsNullish(items[i])
    ensures var r := Migrate(Obj(fields));
      && r.Obj? && r.fields.Keys == fields.Keys
      && (forall k :: k in fields && k != "items" ==> r.fields[k] == fields[k])
      && r.fields["items"].Arr? && |r.fields["items"].items| == |items|
      && forall i :: 0 <= i < |items| ==>
           var m := r.fields["items"].items[i];
           m.Obj? && m.fields.Keys == {"value", "isDone"}
           && Get(m, "value") == Get(items[i], "value") && Get(m, "isDone") == Get(items[i], "done")
  {
    var migrated := MigrateItems(items);
    assert migrated.Success?;
    forall i | 0 <= i < |items|
      ensures MigrateItem(items[i]) == Success(migrated.value[i])
    {
    }
  }

  /** A stored empty item list makes `items[0].done` throw, so nothing changes. */
  lemma EmptyItemsKeepState(fields: map<string, Value>)
    requires "items" in fields && fields["items"] == Arr([])
    ensures Migrate(Obj(fields)) == Obj(fields)
  {
  }

  /** One nullish item makes the `map` throw, so the state keeps its old items. */
  lemma NullishItemKeepsState(fields: map<string, Value>, items: seq<Value>, i: nat)
    requires "items" in fields && fields["items"] == Arr(items)
    requires i < |items| && IsNullish(items[i])
    ensures Migrate(Obj(fields)) == Obj(fields)
  {
    assert MigrateItems(items).Failure?;
  }

  /** Migrating a restored state again changes nothing: new-format items have no `done`. */
  lemma MigrateIdempotent(state: Value)
    requires !IsNullish(state)
    ensures Migrate(Migrate(state)) == Migrate(state)
  {
    var r := Migrate(state);
    if r != state {
      var items := Get(r, "items").value;
      var xs := MigrateItems(Get(state, "items").value.items).value;
      assert items == Arr(xs);
      assert |xs| > 0;
      assert MigrateItem(Get(state, "items").value.items[0]) == Success(xs[0]);
      assert Get(xs[0], "done") == Success(Undefined);
    }
  }

  /**
   * Whether "Clear completed" keeps an item: its `value` has a truthy
   * `length` and its `isDone` is falsy. The two `filter` passes are fused:
   * the second never throws, because every item that reaches it has been read.
   */
  function Keeps(item: Value): (r: Result<bool, Value>)
    ensures r.Failure? <==> IsNullish(item) || IsNullish(Get(item, "value").value)
  {
    var value :- Get(item, "value");
    var length :- Get(value, "length");
    Success(Truthy(length) && !Truthy(Get(item, "isDone").value))
  }

  /** The "Clear completed" action: the kept items in their order, or the first error. */
  function ClearCompleted(items: seq<Value>): (r: Result<seq<Value>, Value>)
    ensures r.Success? <==> forall i :: 0 <= i < |items| ==> Keeps(items[i]).Success?
    ensures r.Success? ==> |r.value| <= |items|
  {
    if |items| == 0 then Success([])
    else
      var keep :- Keeps(items[0]);
      var rest :- ClearCompleted(items[1..]);
      assert forall i :: 1 <= i < |items| ==> items[i] == items[1..][i - 1];
      Success(if keep then [items[0]] + rest else rest)
  }

  /** What survives is exactly the items the action keeps. */
  lemma {:induction false} ClearCompletedKeepsExactly(items: seq<Value>)
    requires ClearCompleted(items).Success?
    ensures forall x :: x in ClearCompleted(items).value ==> x in items && Keeps(x) == Success(true)
    ensures forall i :: 0 <= i < |items| && Keeps(items[i]) == Success(true) ==> items[i] in ClearCompleted(items).value
  {
    if |items| > 0 {
      ClearCompletedCons(items);
      ClearCompletedKeepsExactly(items[1..]);
      assert forall i :: 1 <= i < |items| ==> items[i] == items[1..][i - 1];
    }
  }

  /** One step of the action: the first item, if kept, ahead of what the rest keeps. */
  lemma ClearCompletedCons(items: seq<Value>)
    requires |items| > 0 && ClearCompleted(items).Success?
    ensures Keeps(items[0]).Success? && ClearCompleted(items[1..]).Success?
    ensures var rest := ClearCompleted(items[1..]).value;
      ClearCompleted(items).value == if Keeps(items[0]).value then [items[0]] + rest else rest
  {
    var k := Keeps(items[0]);
    assert k.Success?;
    var rest := ClearCompleted(items[1..]);
    assert rest.Success?;
  }

  /** The action on an item put in front of a list it succeeds on. */
  lemma ClearCompletedStep(x: Value, rest: seq<Value>)
    requires Keeps(x).Success? && ClearCompleted(rest).Success?
    ensures var kept := ClearCompleted(rest).value;
      ClearCompleted([x] + rest) == Success(if Keeps(x).value then [x] + kept else kept)
  {
    var items := [x] + rest;
    assert items[0] == x && items[1..] == rest;
  }

  /** The action works item by item, so order is kept: it distributes over concatenation. */
  lemma {:induction false} ClearCompletedAppend(a: seq<Value>, b: seq<Value>)
    requires ClearCompleted(a).Success? && ClearCompleted(b).Success?
    ensures ClearCompleted(a + b) == Success(ClearCompleted(a).value + ClearCompleted(b).value)
  {
    var y := ClearCompleted(b).value;
    if |a| > 0 {
      ClearCompletedCons(a);
      var x := ClearCompleted(a[1..]).value;
      ClearCompletedAppend(a[1..], b);
      assert a + b == [a[0]] + (a[1..] + b);
      ClearCompletedStep(a[0], a[1..] + b);
      if Keeps(a[0]).value {
        assert ([a[0]] + x) + y == [a[0]] + (x + y);
      }
    } else {
      assert a + b == b;
      assert ClearCompleted(a) == Success([]);
      assert [] + y == y;
    }
  }

  /** Clearing twice is clearing once. */
  lemma {:induction false} ClearCompletedIdempotent(items: seq<Value>)
    requires ClearCompleted(items).Success?
    ensures ClearCompleted(ClearCompleted(items).value) == ClearCompleted(items)
  {
    if |items| > 0 {
      ClearCompletedIdempotent(items[1..]);
      var rest := ClearCompleted(items[1..]).value;
      if Keeps(items[0]) == Success(true) {
        assert ([items[0]] + rest)[1..] == rest;
      }
    }
  }

  /** The toolbar icon: the pen for no items, a check when none remain, otherwise the count. */
  datatype Icon = Pen | Check | Remaining(count: nat)

  /** What the toolbar's `filter` tests: a truthy `done`. */
  predicate IsDone(item: Value) {
    Get(item, "done").Success? && Truthy(Get(item, "done").value)
  }

  /** `items.filter((item) => item.done).length`. */
  function CountDone(items: seq<Value>): (r: Result<nat, Value>)
    ensures r.Success? <==> forall i :: 0 <= i < |items| ==> !IsNullish(items[i])
    ensures r.Success? ==> r.value <= |items|
    ensures r.Success? ==> (r.value == |items| <==> forall i :: 0 <= i < |items| ==> IsDone(items[i]))
    ensures r.Success? ==> (r.value == 0 <==> forall i :: 0 <= i < |items| ==> !IsDone(items[i]))
  {
    if |items| == 0 then Success(0)
    else
      var done :- Get(items[0], "done");
      var rest :- CountDone(items[1..]);
      assert forall i :: 1 <= i < |items| ==> items[i] == items[1..][i - 1];
      Success((if Truthy(done) then 1 else 0) + rest)
  }

  /** `updateToolbarIcon(items = [])`. */
  function ToolbarIcon(items: Value): (r: Result<Icon, Value>)
    ensures items.Undefined? ==> r == Success(Pen)
    ensures items.Arr? && |items.items| == 0 ==> r == Success(Pen)
    ensures items.Arr? && r.Success? && |items.items| > 0 ==>
      (r.value == Check <==> forall i :: 0 <= i < |items.items| ==> IsDone(items.items[i]))
    ensures r.Success? && r.value.Remaining? ==>
      && items.Arr? && CountDone(items.items).Success? && 0 < r.value.count <= |items.items|
      && r.value.count == |items.items| - CountDone(items.items).value
  {
    var list := if items.Undefined? then Arr([]) else items;
    var length :- Get(list, "length");
    if !Truthy(length) then Success(Pen)
    else if !list.Arr? then Failure(NotAFunction)
    else
      var done :- CountDone(list.items);
      var remaining := |list.items| - done;
      if remaining == 0 then Success(Check) else Success(Remaining(remaining))
  }

  /**
   * The count reads `done`, the field of the old format, so restored
   * new-format items are all counted as remaining, whatever their `isDone`.
   */
  lemma ToolbarCountsMigratedItemsAsRemaining(items: seq<Value>)
    requires |items| > 0
    requires forall i :: 0 <= i < |items| ==> items[i].Obj? && items[i].fields.Keys == {"value", "isDone"}
    ensures ToolbarIcon(Arr(items)) == Success(Remaining(|items|))
  {
    assert forall i :: 0 <= i < |items| ==> Get(items[i], "done") == Success(Undefined);
  }
}
