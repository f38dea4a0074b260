/**
 * mergeDeep over JSON-like values. A source is merged into a target only when
 * both are plain objects; then each source key whose value is a plain object
 * is merged recursively into the target's value at that key (replaced by `{}`
 * first when falsy), and every other source value replaces the target's.
 * Several sources are applied left to right.
 */
module MergeDeep {

  /** The values a parsed JSON document, or `undefined`, can hold. */
  datatype Value =
    | Obj(fields: map<string, Value>)
    | Arr(items: seq<Value>)
    | Str(s: string)
    | Num(n: real)
    | Bool(b: bool)
    | Null
    | Undefined

  const EmptyObject: Value := Obj(map[])

  /** isObject: not null or undefined, and built by the `Object` constructor. */
  predicate IsObject(v: Value)
  {
    v.Obj?
  }

  /** JavaScript truthiness. */
  predicate Truthy(v: Value)
  {
    match v
    case Obj(_) => true
    case Arr(_) => true
    case Str(s) => s != ""
    case Num(n) => n != 0.0
    case Bool(b) => b
    case Null => false
    case Undefined => false
  }

  /** `target[key]`: a missing property reads as `undefined`. */
  function Lookup(fields: map<string, Value>, key: string): Value
  {
    if key in fields then fields[key] else Undefined
  }

  // ---------------------------------------------------------------------------
  // The specification

  /** mergeDeep(target, source) with a single source, as a value. */
  function Merge(target: Value, source: Value): Value
    decreases source, 0
  {
    if IsObject(target) && IsObject(source) then
      Obj(map key | key in target.fields.Keys + source.fields.Keys ::
            if key in source.fields then MergeAt(Lookup(target.fields, key), source.fields[key])
            else target.fields[key])
    else target
  }

  /**
   * The target's value at a key after that key of the source is visited:
   * an object source value is merged into the old value, or into `{}` when
   * the old value is falsy; any other source value replaces the old one.
   */
  function MergeAt(current: Value, sourceValue: Value): Value
    decreases sourceValue, 1
  {
    if IsObject(sourceValue) then Merge(if Truthy(current) then current else EmptyObject, sourceValue)
    else sourceValue
  }

  /** mergeDeep(target, ...sources). */
  function MergeAll(target: Value, sources: seq<Value>): Value
    decreases |sources|
  {
    if sources == [] then target else MergeAll(Merge(target, sources[0]), sources[1..])
  }

  // ---------------------------------------------------------------------------
  // The in-place algorithm, on values

  /**
   * mergeDeep: with no sources the target is returned as is; otherwise the
   * first source is shifted off, merged, and the rest follow.
   */
  method MergeDeep(target: Value, sources: seq<Value>) returns (merged: Value)
    ensures sources == [] ==> merged == target
    ensures merged == MergeAll(target, sources)
    decreases |sources|
  {
    if |sources| == 0 {
      return target;
    }
    var source := sources[0];
    var rest := sources[1..];
    var next := MergeSource(target, source);
    merged := MergeDeep(next, rest);
  }

  /**
   * The body of mergeDeep for one source: the `for...in` loop over the source's
   * keys, updating the target key by key. `mergeDeep(target[key], source[key])`
   * has a single source, so its recursion is a call of this method.
   */
  method MergeSource(target: Value, source: Value) returns (merged: Value)
    ensures merged == Merge(target, source)
    decreases source
  {
    if !(IsObject(target) && IsObject(source)) {
      return target;
    }
    var fields := target.fields;
    var pending := source.fields.Keys;
    while pending != {}
      invariant pending <= source.fields.Keys
      invariant Obj(fields) == Merge(target, Obj(source.fields - pending))
      decreases pending
    {
      var key :| key in pending;
      ghost var done := source.fields - pending;
      ghost var before := fields;
      MergeUntouched(target, done, key);
      var value := source.fields[key];
      if IsObject(value) {
        if !Truthy(Lookup(fields, key)) {
          fields := fields[key := EmptyObject];
        }
        var inner := MergeSource(fields[key], value);
        fields := fields[key := inner];
      } else {
        fields := fields[key := value];
      }
      assert fields == before[key := MergeAt(Lookup(target.fields, key), value)];
      pending := pending - {key};
      assert source.fields - pending == done[key := value];
      MergeOneMoreKey(target, source.fields, done, key);
    }
    assert source.fields - {} == source.fields;
    merged := Obj(fields);
  }

  /** A key the source does not hold keeps the target's value. */
  lemma MergeUntouched(target: Value, done: map<string, Value>, key: string)
    requires IsObject(target) && key !in done
    ensures Lookup(Merge(target, Obj(done)).fields, key) == Lookup(target.fields, key)
  {
  }

  /** Visiting one more source key changes the target at that key only. */
  lemma MergeOneMoreKey(target: Value, sourceFields: map<string, Value>, done: map<string, Value>, key: string)
    requires IsObject(target)
    requires key in sourceFields && key !in done
    requires forall k :: k in done ==> k in sourceFields && done[k] == sourceFields[k]
    ensures Merge(target, Obj(done[key := sourceFields[key]])).fields
         == Merge(target, Obj(done)).fields[key := MergeAt(Lookup(target.fields, key), sourceFields[key])]
  {
  }

  // ---------------------------------------------------------------------------
  // The laws of mergeDeep

  /** A single source: mergeDeep(t, s) is Merge(t, s). */
  lemma MergeAllSingle(target: Value, source: Value)
    ensures MergeAll(target, [source]) == Merge(target, source)
  {
    assert [source][1..] == [];
  }

  /** Sources are applied left to right: mergeDeep(t, ...a, ...b) == mergeDeep(mergeDeep(t, ...a), ...b). */
  lemma {:induction false} MergeAllAppend(target: Value, a: seq<Value>, b: seq<Value>)
    ensures MergeAll(target, a + b) == MergeAll(MergeAll(target, a), b)
    decreases |a|
  {
    if a == [] {
      assert a + b == b;
    } else {
      assert (a + b)[0] == a[0];
      assert (a + b)[1..] == a[1..] + b;
      MergeAllAppend(Merge(target, a[0]), a[1..], b);
    }
  }

  /** mergeDeep(t, a, b) == mergeDeep(mergeDeep(t, a), b). */
  lemma MergeTwoSources(target: Value, a: Value, b: Value)
    ensures MergeAll(target, [a, b]) == Merge(Merge(target, a), b)
  {
    MergeAllAppend(target, [a], [b]);
    assert [a] + [b] == [a, b];
    MergeAllSingle(target, a);
    MergeAllSingle(Merge(target, a), b);
  }

  /** When the target or the source is not a plain object, the source has no effect. */
  lemma MergeNeedsObjects(target: Value, source: Value)
    requires !IsObject(target) || !IsObject(source)
    ensures Merge(target, source) == target
  {
  }

  /**
   * Merging two objects gives an object whose keys are the union of theirs,
   * where target keys the source lacks keep their values.
   */
  lemma MergeKeys(target: Value, source: Value)
    requires IsObject(target) && IsObject(source)
    ensures IsObject(Merge(target, source))
    ensures Merge(target, source).fields.Keys == target.fields.Keys + source.fields.Keys
    ensures forall k :: k in target.fields && k !in source.fields ==>
              Merge(target, source).fields[k] == target.fields[k]
  {
  }

  /** A source value that is not a plain object (array, string, null, ...) overwrites. */
  lemma MergeOverwrites(target: Value, source: Value, key: string)
    requires IsObject(target) && IsObject(source)
    requires key in source.fields && !IsObject(source.fields[key])
    ensures Merge(target, source).fields[key] == source.fields[key]
  {
  }

  /**
   * A plain-object source value is merged key by key into the target's value;
   * a falsy (or missing) target value is first replaced by `{}`.
   */
  lemma MergeRecurses(target: Value, source: Value, key: string)
    requires IsObject(target) && IsObject(source)
    requires key in source.fields && IsObject(source.fields[key])
    ensures Truthy(Lookup(target.fields, key)) ==>
              Merge(target, source).fields[key] == Merge(target.fields[key], source.fields[key])
    ensures !Truthy(Lookup(target.fields, key)) ==>
              Merge(target, source).fields[key] == Merge(EmptyObject, source.fields[key])
  {
  }

  /** Nested objects on both sides are unioned key by key. */
  lemma MergeUnionsNested(target: Value, source: Value, key: string)
    requires IsObject(target) && IsObject(source)
    requires key in target.fields && IsObject(target.fields[key])
    requires key in source.fields && IsObject(source.fields[key])
    ensures IsObject(Merge(target, source).fields[key])
    ensures Merge(target, source).fields[key].fields.Keys
         == target.fields[key].fields.Keys + source.fields[key].fields.Keys
  {
    MergeRecurses(target, source, key);
    MergeKeys(target.fields[key], source.fields[key]);
  }

  /**
   * The quirk of `!target[key]`: a truthy target value that is not a plain
   * object (a non-empty string, an array, ...) silently keeps its value when
   * the source brings an object for that key.
   */
  lemma MergeKeepsTruthyNonObject(target: Value, source: Value, key: string)
    requires IsObject(target) && IsObject(source)
    requires key in target.fields && Truthy(target.fields[key]) && !IsObject(target.fields[key])
    requires key in source.fields && IsObject(source.fields[key])
    ensures Merge(target, source).fields[key] == target.fields[key]
  {
    MergeRecurses(target, source, key);
  }

  /** Merging a plain object into `{}` yields a structurally equal copy of it. */
  lemma {:induction false} MergeIntoEmpty(source: Value)
    requires IsObject(source)
    ensures Merge(EmptyObject, source) == source
    decreases source
  {
    var result := Merge(EmptyObject, source);
    forall key | key in source.fields
      ensures result.fields[key] == source.fields[key]
    {
      var value := source.fields[key];
      assert result.fields[key] == MergeAt(Undefined, value);
      if IsObject(value) {
        MergeIntoEmpty(value);
      }
    }
    assert result.fields == source.fields;
  }

  /** Scenario: nested keys are unioned, scalars and arrays are overwritten. */
  lemma MergeExample()
    ensures Merge(
              Obj(map["a" := Obj(map["x" := Num(1.0)]), "b" := Arr([Num(1.0)])]),
              Obj(map["a" := Obj(map["y" := Num(2.0)]), "b" := Arr([])]))
         == Obj(map["a" := Obj(map["x" := Num(1.0), "y" := Num(2.0)]), "b" := Arr([])])
  {
    var t := Obj(map["a" := Obj(map["x" := Num(1.0)]), "b" := Arr([Num(1.0)])]);
    var s := Obj(map["a" := Obj(map["y" := Num(2.0)]), "b" := Arr([])]);
    var expected := Obj(map["a" := Obj(map["x" := Num(1.0), "y" := Num(2.0)]), "b" := Arr([])]);
    var inner := Merge(Obj(map["x" := Num(1.0)]), Obj(map["y" := Num(2.0)]));
    assert inner.fields.Keys == {"x", "y"};
    assert inner == Obj(map["x" := Num(1.0), "y" := Num(2.0)]);
    assert Merge(t, s).fields.Keys == {"a", "b"};
    assert Merge(t, s).fields == expected.fields;
  }
}
