/**
 * Keyboard shortcuts: whether one key of a shortcut matches a keyboard event
 * (src/utils/eventMatchesKey.js) and whether all of them do
 * (src/utils/eventMatchesShortcut.js). Which key names count as modifiers is
 * decided by `keyIsModifier`, a helper outside this model, and is the
 * `isModifier` parameter.
 */
module Shortcut {
  import opened Wrappers
  import opened JsValue
  import opened Text

  /** The fields of a `KeyboardEvent` the matcher reads. */
  datatype KeyEvent = KeyEvent(key: string, metaKey: bool, ctrlKey: bool, altKey: bool, shiftKey: bool)

  /** The event flags `modifierEventMap` names. */
  datatype ModifierProp = MetaKey | CtrlKey | AltKey | ShiftKey

  /** `modifierEventMap`: the event flag behind each modifier name. */
  function ModifierEventMap(needle: string): Option<ModifierProp> {
    if needle == "command" then Some(MetaKey)
    else if needle == "control" then Some(CtrlKey)
    else if needle == "alt" then Some(AltKey)
    else if needle == "shift" then Some(ShiftKey)
    else None
  }

  function Prop(e: KeyEvent, p: ModifierProp): bool {
    match p
    case MetaKey => e.metaKey
    case CtrlKey => e.ctrlKey
    case AltKey => e.altKey
    case ShiftKey => e.shiftKey
  }

  /**
   * `eventMatchesKey(e, needle)`: a modifier needle yields its event flag, or
   * `undefined` when the map has no entry; any other needle is compared with
   * the lower-cased key.
   */
  function EventMatchesKey(e: KeyEvent, needle: string, isModifier: string -> bool): (r: Value)
    ensures isModifier(needle) && needle == "command" ==> r == Bool(e.metaKey)
    ensures isModifier(needle) && needle == "control" ==> r == Bool(e.ctrlKey)
    ensures isModifier(needle) && needle == "alt" ==> r == Bool(e.altKey)
    ensures isModifier(needle) && needle == "shift" ==> r == Bool(e.shiftKey)
    ensures isModifier(needle) && needle != "command" && needle != "control" && needle != "alt" && needle != "shift"
      ==> r == Undefined
    ensures !isModifier(needle) ==> r.Bool? && (r.b <==> Lower(e.key) == needle)
  {
    if isModifier(needle) then
      match ModifierEventMap(needle)
      case Some(p) => Bool(Prop(e, p))
      case None => Undefined
    else Bool(Lower(e.key) == needle)
  }

  /** A plain needle holding an upper-case letter never matches, whatever the key. */
  lemma UppercaseNeedleNeverMatches(e: KeyEvent, needle: string, isModifier: string -> bool, i: nat)
    requires !isModifier(needle) && i < |needle| && IsAsciiUpper(needle[i])
    ensures !Truthy(EventMatchesKey(e, needle, isModifier))
  {
    var lowered := Lower(e.key);
    if |lowered| == |needle| {
      assert !IsAsciiUpper(lowered[i]);
    }
  }

  /** For a plain needle only the key matters, not the modifier flags. */
  lemma PlainNeedleIgnoresModifiers(e: KeyEvent, e2: KeyEvent, needle: string, isModifier: string -> bool)
    requires !isModifier(needle) && e.key == e2.key
    ensures EventMatchesKey(e, needle, isModifier) == EventMatchesKey(e2, needle, isModifier)
  {
  }

  /** `shortcut.every(key => eventMatchesKey(e, key))`. */
  function EventMatchesShortcut(e: KeyEvent, shortcut: seq<string>, isModifier: string -> bool): (r: bool)
    ensures r <==> forall i :: 0 <= i < |shortcut| ==> Truthy(EventMatchesKey(e, shortcut[i], isModifier))
  {
    if |shortcut| == 0 then true
    else Truthy(EventMatchesKey(e, shortcut[0], isModifier)) && EventMatchesShortcut(e, shortcut[1..], isModifier)
  }

  /** The empty shortcut matches every event. */
  lemma EmptyShortcutMatches(e: KeyEvent, isModifier: string -> bool)
    ensures EventMatchesShortcut(e, [], isModifier)
  {
  }

  /** Only which keys a shortcut holds matters, not their order or repetition. */
  lemma ShortcutOrderIrrelevant(e: KeyEvent, a: seq<string>, b: seq<string>, isModifier: string -> bool)
    requires forall k :: k in a <==> k in b
    ensures EventMatchesShortcut(e, a, isModifier) == EventMatchesShortcut(e, b, isModifier)
  {
    if EventMatchesShortcut(e, a, isModifier) {
      forall i | 0 <= i < |b|
        ensures Truthy(EventMatchesKey(e, b[i], isModifier))
      {
        assert b[i] in a;
      }
    }
    if EventMatchesShortcut(e, b, isModifier) {
      forall i | 0 <= i < |a|
        ensures Truthy(EventMatchesKey(e, a[i], isModifier))
      {
        assert a[i] in b;
      }
    }
  }

  /** Adding keys to a shortcut can turn a match into a miss, never a miss into a match. */
  lemma MoreKeysMatchLess(e: KeyEvent, a: seq<string>, b: seq<string>, isModifier: string -> bool)
    ensures EventMatchesShortcut(e, a + b, isModifier) ==> EventMatchesShortcut(e, a, isModifier)
    ensures EventMatchesShortcut(e, a + b, isModifier)
      <==> EventMatchesShortcut(e, a, isModifier) && EventMatchesShortcut(e, b, isModifier)
  {
    if EventMatchesShortcut(e, a, isModifier) && EventMatchesShortcut(e, b, isModifier) {
      forall i | 0 <= i < |a + b|
        ensures Truthy(EventMatchesKey(e, (a + b)[i], isModifier))
      {
        if i >= |a| {
          assert (a + b)[i] == b[i - |a|];
        }
      }
    }
    if EventMatchesShortcut(e, a + b, isModifier) {
      forall i | 0 <= i < |a|
        ensures Truthy(EventMatchesKey(e, a[i], isModifier))
      {
        assert (a + b)[i] == a[i];
      }
      forall i | 0 <= i < |b|
        ensures Truthy(EventMatchesKey(e, b[i], isModifier))
      {
        assert (a + b)[|a| + i] == b[i];
      }
    }
  }
}
