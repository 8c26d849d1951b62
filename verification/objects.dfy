/**
 * `isObject` (src/utils/isObject.js) and `deepAssign`
 * (src/utils/deepAssign.js): the plain-object test and the recursive merge
 * of sources into a target.
 *
 * The merge is modelled on values: the result is what the target holds
 * afterwards. Within one source every key is visited once, so the order in
 * which `Object.entries` lists them does not change the result, and the
 * model merges all keys of a source at once.
 */
module Objects {
  import opened Wrappers
  import opened JsValue
  import Text

  /** `v && typeof v === 'object' && !Array.isArray(v)`. */
  function IsObject(v: Value): (r: Value)
    ensures !Truthy(v) ==> r == v
    ensures Truthy(v) ==> r == Bool(IsObjectLike(v))
    ensures Truthy(r) <==> IsObjectLike(v)
  {
    if !Truthy(v) then v
    else if TypeOf(v) != "object" then Bool(false)
    else Bool(!v.Arr?)
  }

  /** The entries `Object.entries` lists for an array: its indices as keys. */
  function IndexEntries(items: seq<Value>): (r: map<string, Value>)
    ensures r.Keys == IndexKeys(|items|)
    ensures forall i :: 0 <= i < |items| ==> r[Text.NatToString(i)] == items[i]
  {
    if |items| == 0 then map[]
    else
      var n := |items| - 1;
      var before := IndexEntries(items[..n]);
      NewIndexKey(n);
      IndexEntriesStep(before, items);
      before[Text.NatToString(n) := items[n]]
  }

  /** The entries of a string: its indices as keys, each giving that character. */
  function CharEntries(s: string): (r: map<string, Value>)
    ensures r.Keys == IndexKeys(|s|)
    ensures forall i :: 0 <= i < |s| ==> r[Text.NatToString(i)] == Str([s[i]])
  {
    if |s| == 0 then map[]
    else
      var n := |s| - 1;
      var before := CharEntries(s[..n]);
      NewIndexKey(n);
      CharEntriesStep(before, s);
      before[Text.NatToString(n) := Str([s[n]])]
  }

  lemma IndexEntriesStep(before: map<string, Value>, items: seq<Value>)
    requires |items| > 0
    requires forall i :: 0 <= i < |items| - 1 ==> Text.NatToString(i) in before && before[Text.NatToString(i)] == items[..|items| - 1][i]
    ensures var n := |items| - 1;
      forall i :: 0 <= i < |items| ==> before[Text.NatToString(n) := items[n]][Text.NatToString(i)] == items[i]
  {
    var n := |items| - 1;
    NewIndexKey(n);
    forall i | 0 <= i < |items| ensures before[Text.NatToString(n) := items[n]][Text.NatToString(i)] == items[i] {
      if i < n {
        assert Text.NatToString(i) != Text.NatToString(n);
        assert items[..n][i] == items[i];
      }
    }
  }

  lemma CharEntriesStep(before: map<string, Value>, s: string)
    requires |s| > 0
    requires forall i :: 0 <= i < |s| - 1 ==> Text.NatToString(i) in before && before[Text.NatToString(i)] == Str([s[..|s| - 1][i]])
    ensures var n := |s| - 1;
      forall i :: 0 <= i < |s| ==> before[Text.NatToString(n) := Str([s[n]])][Text.NatToString(i)] == Str([s[i]])
  {
    var n := |s| - 1;
    NewIndexKey(n);
    forall i | 0 <= i < |s| ensures before[Text.NatToString(n) := Str([s[n]])][Text.NatToString(i)] == Str([s[i]]) {
      if i < n {
        assert Text.NatToString(i) != Text.NatToString(n);
        assert s[..n][i] == s[i];
      }
    }
  }

  /** The keys of the indices below `n`. */
  function IndexKeys(n: nat): set<string> {
    set i | 0 <= i < n :: Text.NatToString(i)
  }

  /** The key of index `n` is none of the keys of the indices before it. */
  lemma NewIndexKey(n: nat)
    ensures forall i :: 0 <= i < n ==> Text.NatToString(i) != Text.NatToString(n)
    ensures IndexKeys(n + 1) == IndexKeys(n) + {Text.NatToString(n)}
  {
    var all := IndexKeys(n + 1);
    var before := IndexKeys(n);
    forall k | k in all ensures k in before + {Text.NatToString(n)} {
      var i :| 0 <= i < n + 1 && k == Text.NatToString(i);
      if i < n { assert Text.NatToString(i) in before; }
    }
    assert Text.NatToString(n) in all;
    forall i | 0 <= i < n ensures Text.NatToString(i) != Text.NatToString(n) {
      Text.NatToStringInjective(i, n);
    }
  }

  /** `Object.entries(source)` as an object; `null` and `undefined` throw. */
  function Entries(source: Value): (r: Result<Value, Value>)
    ensures r.Failure? <==> IsNullish(source)
    ensures r.Success? ==> r.value.Obj?
    ensures IsObjectLike(source) ==> r == Success(Obj(Fields(source)))
    ensures source.Bool? || source.Num? ==> r == Success(Obj(map[]))
  {
    match source
    case Undefined => Failure(ReadOfNullish)
    case Null => Failure(ReadOfNullish)
    case Obj(f) => Success(Obj(f))
    case Error(_, _, f) => Success(Obj(f))
    case Arr(items) => Success(Obj(IndexEntries(items)))
    case Str(s) => Success(Obj(CharEntries(s)))
    case _ => Success(Obj(map[]))
  }

  /**
   * What `target[key]` becomes for a source value: an object merges into an
   * object already there and replaces anything else; any other value
   * overwrites.
   */
  function MergeValue(current: Value, value: Value): (r: Value)
    decreases value, 2
  {
    if IsObjectLike(value) && IsObjectLike(current) then WithFields(current, MergeFields(Fields(current), value))
    else value
  }

  /** The fields of a target after every entry of `source` has been applied. */
  function MergeFields(fields: map<string, Value>, source: Value): (r: map<string, Value>)
    requires source.Obj? || source.Error?
    ensures r.Keys == fields.Keys + source.fields.Keys
    ensures forall k :: k in fields && k !in source.fields ==> r[k] == fields[k]
    ensures forall k :: k in source.fields && !IsObjectLike(source.fields[k]) ==> r[k] == source.fields[k]
    ensures forall k :: k in source.fields && IsObjectLike(source.fields[k]) && (k !in fields || !IsObjectLike(fields[k])) ==>
      r[k] == source.fields[k]
    decreases source, 1
  {
    map k | k in fields.Keys + source.fields.Keys ::
      if k in source.fields then MergeValue(if k in fields then fields[k] else Undefined, source.fields[k])
      else fields[k]
  }

  /** The target and, when a source was `null` or `undefined`, the error that stopped the merge. */
  datatype Assigned = Assigned(target: Value, thrown: Option<Value>)

  /**
   * `deepAssign(target, ...sources)`. Sources apply left to right; a nullish
   * source throws, and what the earlier sources did stays done.
   */
  function DeepAssign(target: Value, sources: seq<Value>): (r: Assigned)
    requires IsObjectLike(target)
    ensures IsObjectLike(r.target)
    ensures r.thrown.None? <==> forall i :: 0 <= i < |sources| ==> !IsNullish(sources[i])
    ensures r.thrown.Some? ==> r.thrown.value == ReadOfNullish
    ensures Fields(target).Keys <= Fields(r.target).Keys
    decreases |sources|
  {
    if |sources| == 0 then Assigned(target, None)
    else match Entries(sources[0])
      case Failure(e) => Assigned(target, Some(e))
      case Success(entries) =>
        var next := WithFields(target, MergeFields(Fields(target), entries));
        var r := DeepAssign(next, sources[1..]);
        assert forall i :: 1 <= i < |sources| ==> sources[i] == sources[1..][i - 1];
        r
  }

  /** With no sources the target is returned as it was. */
  lemma NoSourcesKeepTarget(target: Value)
    requires IsObjectLike(target)
    ensures DeepAssign(target, []) == Assigned(target, None)
  {
  }

  /** One object source: the per-key rules, and keys it does not name are untouched. */
  lemma SingleSource(target: Value, source: Value, key: string)
    requires IsObjectLike(target) && IsObjectLike(source)
    ensures var r := DeepAssign(target, [source]);
      var t := Fields(target);
      var s := Fields(source);
      var f := Fields(r.target);
      && r.thrown.None?
      && f.Keys == t.Keys + s.Keys
      && (key in t && key !in s ==> f[key] == t[key])
      && (key in s && !IsObjectLike(s[key]) ==> f[key] == s[key])
      && (key in s && IsObjectLike(s[key]) && (key !in t || !IsObjectLike(t[key])) ==> f[key] == s[key])
      && (key in s && IsObjectLike(s[key]) && key in t && IsObjectLike(t[key]) ==>
            f[key] == WithFields(t[key], MergeFields(Fields(t[key]), s[key])))
  {
    var f := Fields(DeepAssign(target, [source]).target);
    assert Entries(source) == Success(Obj(Fields(source)));
    assert [source][1..] == [];
    var next := WithFields(target, MergeFields(Fields(target), Obj(Fields(source))));
    assert DeepAssign(target, [source]) == DeepAssign(next, []);
    assert f == MergeFields(Fields(target), Obj(Fields(source)));
    if key in Fields(source) {
      assert f[key] == MergeValue(if key in Fields(target) then Fields(target)[key] else Undefined, Fields(source)[key]);
    }
  }

  /** Applying sources in two calls is applying them in one. */
  lemma {:induction false} DeepAssignAppend(target: Value, a: seq<Value>, b: seq<Value>)
    requires IsObjectLike(target) && DeepAssign(target, a).thrown.None?
    ensures DeepAssign(target, a + b) == DeepAssign(DeepAssign(target, a).target, b)
    decreases |a|
  {
    if |a| == 0 {
      assert a + b == b;
    } else {
      assert (a + b)[0] == a[0];
      assert (a + b)[1..] == a[1..] + b;
      var next := WithFields(target, MergeFields(Fields(target), Entries(a[0]).value));
      DeepAssignAppend(next, a[1..], b);
    }
  }

  /** For a key two object sources both set to a non-object, the later source wins. */
  lemma LastSourceWins(target: Value, s1: Value, s2: Value, key: string)
    requires IsObjectLike(target) && IsObjectLike(s1) && IsObjectLike(s2)
    requires key in Fields(s2) && !IsObjectLike(Fields(s2)[key])
    ensures var f := Fields(DeepAssign(target, [s1, s2]).target);
      key in f && f[key] == Fields(s2)[key]
  {
    var next := DeepAssign(target, [s1]).target;
    DeepAssignAppend(target, [s1], [s2]);
    assert [s1] + [s2] == [s1, s2];
    SingleSource(next, s2, key);
  }

  /** Merging an object into fields equal to its own gives the same fields back. */
  lemma {:induction false} MergeSelf(source: Value)
    requires source.Obj? || source.Error?
    ensures MergeFields(source.fields, source) == source.fields
    decreases source
  {
    var r := MergeFields(source.fields, source);
    forall k | k in source.fields
      ensures r[k] == source.fields[k]
    {
      var v := source.fields[k];
      assert r[k] == MergeValue(v, v);
      if IsObjectLike(v) {
        MergeSelf(v);
        assert WithFields(v, MergeFields(Fields(v), v)) == v;
      }
    }
  }

  /** Merging a value into the result of merging it changes nothing more. */
  lemma {:induction false} MergeValueTwice(current: Value, value: Value)
    ensures MergeValue(MergeValue(current, value), value) == MergeValue(current, value)
    decreases value, 1
  {
    if IsObjectLike(value) {
      if IsObjectLike(current) {
        MergeFieldsTwice(Fields(current), value);
      } else {
        MergeSelf(value);
        assert WithFields(value, MergeFields(Fields(value), value)) == value;
      }
    }
  }

  lemma {:induction false} MergeFieldsTwice(fields: map<string, Value>, source: Value)
    requires source.Obj? || source.Error?
    ensures MergeFields(MergeFields(fields, source), source) == MergeFields(fields, source)
    decreases source, 0
  {
    var once := MergeFields(fields, source);
    var twice := MergeFields(once, source);
    forall k | k in source.fields
      ensures twice[k] == once[k]
    {
      MergeValueTwice(if k in fields then fields[k] else Undefined, source.fields[k]);
    }
  }

  /** Assigning the same object source twice is assigning it once. */
  lemma DeepAssignIdempotent(target: Value, source: Value)
    requires IsObjectLike(target) && IsObjectLike(source)
    ensures var once := DeepAssign(target, [source]).target;
      DeepAssign(once, [source]).target == once
  {
    MergeFieldsTwice(Fields(target), Obj(Fields(source)));
  }
}
