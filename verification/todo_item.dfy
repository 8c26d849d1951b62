/**
 * `createTodoItem(options)` (src/utils/createTodoItem.js): a todo item
 * record with defaults for the fields the options leave `undefined`.
 * `getUniqueId` is not part of this model: the id it would give is the
 * `uniqueId` parameter, and the result says whether it was asked for.
 */
module TodoItem {
  import opened JsValue

  /** The seven fields of an item. */
  const FieldNames: set<string> := {"key", "value", "focus", "placeholder", "isDone", "isNew", "remote"}

  /** An item, and whether `getUniqueId()` was called for its key. */
  datatype Created = Created(item: Value, drewId: bool)

  /** A destructuring default: it applies only when the field is `undefined`. */
  function Defaulted(options: Value, name: string, default: Value): (r: Value)
    requires !IsNullish(options)
    ensures Get(options, name).value.Undefined? ==> r == default
    ensures !Get(options, name).value.Undefined? ==> r == Get(options, name).value
  {
    var v := Get(options, name).value;
    if v.Undefined? then default else v
  }

  function CreateTodoItem(options: Value, uniqueId: string): (r: Created)
    ensures r.item.Obj? && r.item.fields.Keys == FieldNames
    ensures var o := if Truthy(options) then options else Obj(map[]);
      && (r.drewId <==> Get(o, "key").value.Undefined?)
      && r.item.fields["key"] == Defaulted(o, "key", Str(uniqueId))
      && r.item.fields["value"] == Defaulted(o, "value", Str(""))
      && r.item.fields["focus"] == Defaulted(o, "focus", Bool(false))
      && r.item.fields["placeholder"] == Defaulted(o, "placeholder", Str(""))
      && r.item.fields["isDone"] == Defaulted(o, "isDone", Bool(false))
      && r.item.fields["isNew"] == Defaulted(o, "isNew", Bool(false))
      && r.item.fields["remote"] == Get(o, "remote").value
  {
    var o := if Truthy(options) then options else Obj(map[]);
    var drew := Get(o, "key").value.Undefined?;
    Created(
      Obj(map[
        "key" := Defaulted(o, "key", Str(uniqueId)),
        "value" := Defaulted(o, "value", Str("")),
        "focus" := Defaulted(o, "focus", Bool(false)),
        "placeholder" := Defaulted(o, "placeholder", Str("")),
        "isDone" := Defaulted(o, "isDone", Bool(false)),
        "isNew" := Defaulted(o, "isNew", Bool(false)),
        "remote" := Defaulted(o, "remote", Undefined)]),
      drew)
  }

  /** Without options every field takes its default and the key is a new id. */
  lemma NoOptionsGivesDefaults(options: Value, uniqueId: string)
    requires !Truthy(options)
    ensures CreateTodoItem(options, uniqueId) == Created(
      Obj(map["key" := Str(uniqueId), "value" := Str(""), "focus" := Bool(false), "placeholder" := Str(""),
              "isDone" := Bool(false), "isNew" := Bool(false), "remote" := Undefined]),
      true)
  {
  }

  /** Fields outside the seven are dropped; a supplied key means no new id is drawn. */
  lemma ExtraFieldsDropped(fields: map<string, Value>, name: string, uniqueId: string)
    requires name !in FieldNames && "key" in fields && !fields["key"].Undefined?
    ensures var r := CreateTodoItem(Obj(fields), uniqueId);
      name !in r.item.fields && !r.drewId && r.item.fields["key"] == fields["key"]
  {
  }

  /** An item made by `createTodoItem` comes back unchanged, without a new id, when passed in again. */
  lemma CreateIsIdempotent(options: Value, uniqueId: string, otherId: string)
    ensures var first := CreateTodoItem(options, uniqueId).item;
      CreateTodoItem(first, otherId) == Created(first, false)
  {
    var first := CreateTodoItem(options, uniqueId).item;
    var again := CreateTodoItem(first, otherId).item;
    assert again.fields.Keys == first.fields.Keys;
    assert forall k :: k in FieldNames ==> again.fields[k] == first.fields[k];
  }
}
