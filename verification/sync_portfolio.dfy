/**
 * The portfolio data-sync transform (`processData` in scripts/sync-portfolio.js).
 *
 * `processData` picks six named exports of the portfolio data module, in a
 * fixed order, drops those whose value is falsy, and turns each kept value
 * into plain JSON data with `JSON.parse(JSON.stringify(value, replacer))`.
 * The replacer turns icon components into their names: a function becomes its
 * `displayName`, else its `name`, else "Icon"; an object carrying a truthy
 * `displayName` becomes that `displayName`.
 *
 * The model works on value trees, not on JSON text: `Serialize` is the value
 * that `JSON.parse(JSON.stringify(v, replacer))` rebuilds, or `None` when
 * `JSON.stringify` produces `undefined`.
 */
module SyncPortfolio {
  import opened Wrappers

  /** An object member: its key and its value. Objects keep insertion order. */
  type Field = (string, Value)

  /** A JavaScript value as the portfolio data module holds it. */
  datatype Value =
    | Null
    | Bool(b: bool)
    | Num(n: real)
    | Str(s: string)
    | Arr(items: seq<Value>)
    | Obj(fields: seq<Field>)
      /** A function (an icon component); `displayName` may be absent. */
    | Func(displayName: Option<Value>, name: string)

  // ---------------------------------------------------------------------------
  // Size measure, used for termination of the replacer-driven traversal

  function Size(v: Value): (r: nat)
    ensures r >= 1
  {
    match v
    case Arr(items) => 1 + ItemsSize(items)
    case Obj(fields) => 1 + FieldsSize(fields)
    case Func(dn, _) => 1 + (if dn.Some? then Size(dn.value) else 0)
    case _ => 1
  }

  function ItemsSize(items: seq<Value>): nat
  {
    if items == [] then 0 else Size(items[0]) + ItemsSize(items[1..])
  }

  function FieldsSize(fields: seq<Field>): nat
  {
    if fields == [] then 0 else FieldSize(fields[0]) + FieldsSize(fields[1..])
  }

  function FieldSize(f: Field): (r: nat)
    ensures r == Size(f.1) >= 1
  {
    Size(f.1)
  }

  lemma {:induction false} ItemSizeBound(items: seq<Value>, i: nat)
    requires i < |items|
    ensures Size(items[i]) <= ItemsSize(items)
  {
    if i > 0 {
      ItemSizeBound(items[1..], i - 1);
    }
  }

  lemma {:induction false} FieldSizeBound(fields: seq<Field>, i: nat)
    requires i < |fields|
    ensures Size(fields[i].1) <= FieldsSize(fields)
  {
    if i > 0 {
      FieldSizeBound(fields[1..], i - 1);
    }
  }

  // ---------------------------------------------------------------------------
  // JavaScript semantics the replacer relies on

  /**
   * JavaScript truthiness: null, false, 0 and "" are falsy. Arrays, objects
   * and functions are truthy even when empty.
   */
  predicate Truthy(v: Value): (r: bool)
    ensures v.Arr? || v.Obj? || v.Func? ==> r
    ensures r <==> !(v.Null? || v == Bool(false) || v == Num(0.0) || v == Str(""))
  {
    match v
    case Null => false
    case Bool(b) => b
    case Num(n) => n != 0.0
    case Str(s) => s != ""
    case _ => true
  }

  /** Property access `obj[key]` on an object's own members. */
  function Lookup(fields: seq<Field>, key: string): (r: Option<Value>)
    ensures r.Some? ==> Size(r.value) <= FieldsSize(fields)
    ensures r.None? <==> forall i :: 0 <= i < |fields| ==> fields[i].0 != key
    ensures r.Some? ==>
              exists i :: 0 <= i < |fields| && fields[i] == (key, r.value) &&
                forall j :: 0 <= j < i ==> fields[j].0 != key
  {
    if fields == [] then None
    else if fields[0].0 == key then Some(fields[0].1)
    else Lookup(fields[1..], key)
  }

  /** The object's `displayName` when it is truthy: the replacer's `v.displayName` test. */
  function TruthyDisplayName(fields: seq<Field>): (r: Option<Value>)
    ensures r.Some? ==> Truthy(r.value) && Size(r.value) <= FieldsSize(fields)
    ensures r.Some? ==> Lookup(fields, "displayName") == r
    ensures r.None? ==> Lookup(fields, "displayName").None? || !Truthy(Lookup(fields, "displayName").value)
  {
    var d := Lookup(fields, "displayName");
    if d.Some? && Truthy(d.value) then d else None
  }

  // ---------------------------------------------------------------------------
  // The replacer and the serialisation it drives

  /**
   * The replacer: a function becomes its `displayName`, its `name` or "Icon";
   * an object with a truthy `displayName` becomes that value; anything else is
   * returned as it is.
   */
  function Replace(v: Value): (r: Value)
    ensures Size(r) <= Size(v)
    ensures Truthy(r) <==> Truthy(v)
    ensures v.Func? || (v.Obj? && TruthyDisplayName(v.fields).Some?) || r == v
  {
    match v
    case Func(dn, name) =>
      if dn.Some? && Truthy(dn.value) then dn.value
      else if name != "" then Str(name)
      else Str("Icon")
    case Obj(fields) =>
      var d := TruthyDisplayName(fields);
      if d.Some? then d.value else v
    case _ => v
  }

  /**
   * What `JSON.parse(JSON.stringify(v, replacer))` rebuilds from `v`: the
   * replacer is applied to `v` first, and only then are the children of what
   * it returned visited. `None` stands for `undefined`.
   */
  function Serialize(v: Value): (r: Option<Value>)
    ensures r.Some? ==> (Truthy(r.value) <==> Truthy(v))
    decreases Size(v), 1
  {
    Emit(Replace(v))
  }

  /** Serialisation of a value the replacer has already seen. */
  function Emit(v: Value): (r: Option<Value>)
    ensures r.None? <==> v.Func?
    ensures r.Some? ==> (Truthy(r.value) <==> Truthy(v))
    decreases Size(v), 0
  {
    match v
    case Func(_, _) => None
    case Arr(items) => Some(Arr(SerializeItems(items)))
    case Obj(fields) => Some(Obj(SerializeFields(fields)))
    case _ => Some(v)
  }

  /** An array slot that serialises to `undefined` is written as `null`. */
  function OrNull(o: Option<Value>): Value
  {
    if o.Some? then o.value else Null
  }

  function SerializeItems(items: seq<Value>): (r: seq<Value>)
    ensures |r| == |items|
    decreases ItemsSize(items), 2
  {
    if items == [] then []
    else [OrNull(Serialize(items[0]))] + SerializeItems(items[1..])
  }

  /** An object member that serialises to `undefined` is left out. */
  function SerializeFields(fields: seq<Field>): (r: seq<Field>)
    ensures |r| <= |fields|
    decreases FieldsSize(fields), 2
  {
    if fields == [] then []
    else
      var rest := SerializeFields(fields[1..]);
      var x := Serialize(fields[0].1);
      if x.Some? then [(fields[0].0, x.value)] + rest else rest
  }

  // ---------------------------------------------------------------------------
  // Leaf replacement and shape preservation

  /** Null, booleans, numbers and strings come out as they went in. */
  lemma ScalarsUnchanged(v: Value)
    requires v.Null? || v.Bool? || v.Num? || v.Str?
    ensures Serialize(v) == Some(v)
  {
  }

  /** A function becomes its `displayName`, else its `name`, else "Icon". */
  lemma FunctionLeaf(dn: Option<Value>, name: string)
    ensures dn.Some? && Truthy(dn.value) ==>
              Serialize(Func(dn, name)) == Emit(dn.value)
    ensures dn.Some? && dn.value.Str? && dn.value.s != "" ==>
              Serialize(Func(dn, name)) == Some(dn.value)
    ensures (dn.None? || !Truthy(dn.value)) && name != "" ==>
              Serialize(Func(dn, name)) == Some(Str(name))
    ensures (dn.None? || !Truthy(dn.value)) && name == "" ==>
              Serialize(Func(dn, name)) == Some(Str("Icon"))
  {
  }

  /**
   * An object with a truthy `displayName` is replaced by it wholesale: the
   * result depends on nothing else in the object.
   */
  lemma NamedObjectReplaced(fields: seq<Field>, other: seq<Field>)
    requires TruthyDisplayName(fields).Some?
    requires Lookup(other, "displayName") == Lookup(fields, "displayName")
    ensures Serialize(Obj(fields)) == Emit(TruthyDisplayName(fields).value)
    ensures Serialize(Obj(other)) == Serialize(Obj(fields))
    ensures TruthyDisplayName(fields).value.Str? ==>
              Serialize(Obj(fields)) == TruthyDisplayName(fields)
  {
  }

  lemma {:induction false} SerializeItemsAt(items: seq<Value>, i: nat)
    requires i < |items|
    ensures SerializeItems(items)[i] == OrNull(Serialize(items[i]))
  {
    if i > 0 {
      SerializeItemsAt(items[1..], i - 1);
    }
  }

  /** Arrays keep their length and order; each slot is serialised on its own. */
  lemma ArrayShape(items: seq<Value>)
    ensures Serialize(Arr(items)).Some?
    ensures Serialize(Arr(items)).value.Arr?
    ensures |Serialize(Arr(items)).value.items| == |items|
    ensures forall i :: 0 <= i < |items| ==>
              Serialize(Arr(items)).value.items[i] == OrNull(Serialize(items[i]))
  {
    forall i | 0 <= i < |items|
      ensures SerializeItems(items)[i] == OrNull(Serialize(items[i]))
    {
      SerializeItemsAt(items, i);
    }
  }

  /** When every member serialises, every key is kept, in order. */
  lemma {:induction false} SerializeFieldsAllKept(fields: seq<Field>)
    requires forall i :: 0 <= i < |fields| ==> Serialize(fields[i].1).Some?
    ensures |SerializeFields(fields)| == |fields|
    ensures forall i :: 0 <= i < |fields| ==>
              SerializeFields(fields)[i] == (fields[i].0, Serialize(fields[i].1).value)
  {
    if fields != [] {
      SerializeFieldsAllKept(fields[1..]);
      var r := SerializeFields(fields);
      assert r == [(fields[0].0, Serialize(fields[0].1).value)] + SerializeFields(fields[1..]);
      forall i | 0 <= i < |fields|
        ensures r[i] == (fields[i].0, Serialize(fields[i].1).value)
      {
        if i > 0 {
          assert r[i] == SerializeFields(fields[1..])[i - 1];
          assert fields[1..][i - 1] == fields[i];
        }
      }
    }
  }

  /**
   * An object without a truthy `displayName` keeps its keys and their order;
   * each member value is serialised on its own.
   */
  lemma ObjectShape(fields: seq<Field>)
    requires TruthyDisplayName(fields).None?
    requires forall i :: 0 <= i < |fields| ==> Serialize(fields[i].1).Some?
    ensures Serialize(Obj(fields)).Some?
    ensures Serialize(Obj(fields)).value.Obj?
    ensures |Serialize(Obj(fields)).value.fields| == |fields|
    ensures forall i :: 0 <= i < |fields| ==>
              Serialize(Obj(fields)).value.fields[i] == (fields[i].0, Serialize(fields[i].1).value)
  {
    SerializeFieldsAllKept(fields);
  }

  // ---------------------------------------------------------------------------
  // No functions survive

  /** The value holds no function anywhere. */
  predicate FunctionFree(v: Value)
  {
    match v
    case Func(_, _) => false
    case Arr(items) => forall i :: 0 <= i < |items| ==> FunctionFree(items[i])
    case Obj(fields) => forall i :: 0 <= i < |fields| ==> FunctionFree(fields[i].1)
    case _ => true
  }

  lemma {:induction false} SerializeFunctionFree(v: Value)
    ensures Serialize(v).Some? ==> FunctionFree(Serialize(v).value)
    decreases Size(v), 1
  {
    EmitFunctionFree(Replace(v));
  }

  lemma {:induction false} EmitFunctionFree(v: Value)
    ensures Emit(v).Some? ==> FunctionFree(Emit(v).value)
    decreases Size(v), 0
  {
    match v
    case Arr(items) =>
      forall i | 0 <= i < |items|
        ensures FunctionFree(SerializeItems(items)[i])
      {
        SerializeItemsAt(items, i);
        ItemSizeBound(items, i);
        SerializeFunctionFree(items[i]);
      }
    case Obj(fields) =>
      FieldsFunctionFree(fields);
    case _ =>
  }

  lemma {:induction false} FieldsFunctionFree(fields: seq<Field>)
    ensures forall i :: 0 <= i < |SerializeFields(fields)| ==> FunctionFree(SerializeFields(fields)[i].1)
    decreases FieldsSize(fields), 2
  {
    if fields != [] {
      SerializeFunctionFree(fields[0].1);
      FieldsFunctionFree(fields[1..]);
    }
  }

  // ---------------------------------------------------------------------------
  // Idempotence

  /** A value the transform leaves alone: no functions and no named objects. */
  predicate Canonical(v: Value)
  {
    match v
    case Func(_, _) => false
    case Arr(items) => forall i :: 0 <= i < |items| ==> Canonical(items[i])
    case Obj(fields) =>
      TruthyDisplayName(fields).None? && forall i :: 0 <= i < |fields| ==> Canonical(fields[i].1)
    case _ => true
  }

  /** Every `displayName` in the value, on a function or an object, is a string. */
  predicate StringDisplayNames(v: Value)
  {
    match v
    case Func(dn, _) => dn.None? || dn.value.Str?
    case Arr(items) => forall i :: 0 <= i < |items| ==> StringDisplayNames(items[i])
    case Obj(fields) =>
      var d := Lookup(fields, "displayName");
      (d.None? || d.value.Str?) && forall i :: 0 <= i < |fields| ==> StringDisplayNames(fields[i].1)
    case _ => true
  }

  lemma {:induction false} CanonicalFixed(v: Value)
    requires Canonical(v)
    ensures Serialize(v) == Some(v)
    decreases Size(v)
  {
    match v
    case Arr(items) =>
      forall i | 0 <= i < |items|
        ensures SerializeItems(items)[i] == items[i]
      {
        SerializeItemsAt(items, i);
        ItemSizeBound(items, i);
        CanonicalFixed(items[i]);
      }
      assert SerializeItems(items) == items;
    case Obj(fields) =>
      forall i | 0 <= i < |fields|
        ensures Serialize(fields[i].1) == Some(fields[i].1)
      {
        FieldSizeBound(fields, i);
        CanonicalFixed(fields[i].1);
      }
      SerializeFieldsAllKept(fields);
      assert SerializeFields(fields) == fields;
    case _ =>
  }

  /** Looking a key up after serialisation is serialising what the lookup found. */
  lemma {:induction false} LookupSerialized(fields: seq<Field>, key: string)
    requires forall i :: 0 <= i < |fields| ==> Serialize(fields[i].1).Some?
    ensures Lookup(SerializeFields(fields), key) ==
              if Lookup(fields, key).None? then None else Serialize(Lookup(fields, key).value)
  {
    if fields != [] {
      LookupSerialized(fields[1..], key);
    }
  }

  lemma {:induction false} StringDisplayNamesCanonical(v: Value)
    requires StringDisplayNames(v)
    ensures Serialize(v).Some? && Canonical(Serialize(v).value)
    decreases Size(v)
  {
    match v
    case Arr(items) =>
      forall i | 0 <= i < |items|
        ensures Canonical(SerializeItems(items)[i])
      {
        SerializeItemsAt(items, i);
        ItemSizeBound(items, i);
        StringDisplayNamesCanonical(items[i]);
      }
      assert Serialize(v) == Some(Arr(SerializeItems(items)));
    case Obj(fields) =>
      if TruthyDisplayName(fields).None? {
        forall i | 0 <= i < |fields|
          ensures Serialize(fields[i].1).Some? && Canonical(Serialize(fields[i].1).value)
        {
          FieldSizeBound(fields, i);
          StringDisplayNamesCanonical(fields[i].1);
        }
        SerializeFieldsAllKept(fields);
        LookupSerialized(fields, "displayName");
      }
    case _ =>
  }

  /**
   * When every `displayName` is a string, serialising the output again gives
   * the output back.
   */
  lemma SerializeIdempotent(v: Value)
    requires StringDisplayNames(v)
    ensures Serialize(v).Some?
    ensures Serialize(Serialize(v).value) == Serialize(v)
  {
    StringDisplayNamesCanonical(v);
    CanonicalFixed(Serialize(v).value);
  }

  /**
   * Without that condition idempotence fails: an object whose `displayName`
   * is itself an object with a `displayName` loses one level per pass, since
   * the replacer is not applied again to the value it returns.
   */
  lemma NestedDisplayNameNotIdempotent()
    ensures var inner := Obj([("displayName", Str("Sparkles"))]);
            var outer := Obj([("displayName", inner)]);
            Serialize(outer) == Some(inner) && Serialize(inner) == Some(Str("Sparkles"))
  {
    var inner := Obj([("displayName", Str("Sparkles"))]);
    assert SerializeFields([("displayName", Str("Sparkles"))]) == [("displayName", Str("Sparkles"))];
  }

  // ---------------------------------------------------------------------------
  // processData

  /** The exports written to the JSON file, in this order. */
  const IncludeKeys: seq<string> :=
    ["skills", "skillCategories", "experiences", "projects", "aboutSkills", "services"]

  /** `JSON.parse(undefined)` throws: the export could not be serialised. */
  datatype SyncError = UnserialisableExport(key: string)

  /** `rawData[key]` is truthy. */
  predicate Exported(raw: map<string, Value>, key: string)
  {
    key in raw && Truthy(raw[key])
  }

  /** What one iteration of the `forEach` adds to the result, if anything. */
  function Export(raw: map<string, Value>, key: string): (r: Result<Option<Value>, SyncError>)
    ensures r.Success? && r.value.Some? ==> Exported(raw, key) && FunctionFree(r.value.value)
    ensures r.Success? && r.value.None? <==> !Exported(raw, key)
    ensures r.Failure? ==> r.error == UnserialisableExport(key)
  {
    if Exported(raw, key) then
      var x := Serialize(raw[key]);
      SerializeFunctionFree(raw[key]);
      if x.Some? then Success(Some(x.value)) else Failure(UnserialisableExport(key))
    else Success(None)
  }

  /** The result object after the `forEach` has visited `keys`, in order. */
  function Collect(raw: map<string, Value>, keys: seq<string>): (r: Result<seq<Field>, SyncError>)
    ensures r.Success? ==> |r.value| <= |keys|
    ensures r.Success? ==> forall i :: 0 <= i < |r.value| ==> r.value[i].0 in keys && FunctionFree(r.value[i].1)
    ensures r.Failure? ==> r.error.key in keys && Exported(raw, r.error.key)
    decreases |keys|
  {
    if keys == [] then Success([])
    else
      var key := keys[|keys| - 1];
      var prefix := Collect(raw, keys[..|keys| - 1]);
      if prefix.Failure? then prefix
      else
        var e := Export(raw, key);
        if e.Failure? then Failure(e.error)
        else if e.value.Some? then Success(prefix.value + [(key, e.value.value)])
        else Success(prefix.value)
  }

  /** `processData(rawData)`: the ordered result object, or the error it throws. */
  function Process(raw: map<string, Value>): (r: Result<seq<Field>, SyncError>)
    ensures r.Success? ==> |r.value| <= |IncludeKeys|
    ensures r.Success? ==> forall i :: 0 <= i < |r.value| ==> r.value[i].0 in IncludeKeys && FunctionFree(r.value[i].1)
    ensures r.Failure? ==> r.error.key in IncludeKeys && Exported(raw, r.error.key)
  {
    Collect(raw, IncludeKeys)
  }

  /** The imperative `forEach` of `processData`, building `result` key by key. */
  method ProcessData(raw: map<string, Value>) returns (res: Result<seq<Field>, SyncError>)
    ensures res == Process(raw)
  {
    var result: seq<Field> := [];
    var i := 0;
    while i < |IncludeKeys|
      invariant 0 <= i <= |IncludeKeys|
      invariant Collect(raw, IncludeKeys[..i]) == Success(result)
    {
      var key := IncludeKeys[i];
      assert IncludeKeys[..i + 1][..i] == IncludeKeys[..i];
      if key in raw && Truthy(raw[key]) {
        var processed := Serialize(raw[key]);
        if processed.None? {
          CollectFailurePersists(raw, IncludeKeys, i + 1);
          return Failure(UnserialisableExport(key));
        }
        result := result + [(key, processed.value)];
      }
      i := i + 1;
    }
    assert IncludeKeys[..i] == IncludeKeys;
    res := Success(result);
  }

  lemma {:induction false} CollectFailurePersists(raw: map<string, Value>, keys: seq<string>, n: nat)
    requires n <= |keys|
    requires Collect(raw, keys[..n]).Failure?
    ensures Collect(raw, keys) == Collect(raw, keys[..n])
    decreases |keys| - n
  {
    if n == |keys| {
      assert keys[..n] == keys;
    } else {
      var init := keys[..|keys| - 1];
      assert init[..n] == keys[..n];
      CollectFailurePersists(raw, init, n);
    }
  }

  // ---------------------------------------------------------------------------
  // Which keys come out, and in which order

  /** The listed keys whose value is truthy, in list order. */
  function Kept(raw: map<string, Value>, keys: seq<string>): seq<string>
    decreases |keys|
  {
    if keys == [] then []
    else
      var key := keys[|keys| - 1];
      Kept(raw, keys[..|keys| - 1]) + (if Exported(raw, key) then [key] else [])
  }

  function Keys(fields: seq<Field>): (r: seq<string>)
    ensures |r| == |fields|
  {
    seq(|fields|, i requires 0 <= i < |fields| => fields[i].0)
  }

  /** Index of the first occurrence of `key`, or `|keys|` when it is absent. */
  function Position(keys: seq<string>, key: string): nat
  {
    if keys == [] then 0
    else if keys[0] == key then 0
    else 1 + Position(keys[1..], key)
  }

  predicate Distinct(keys: seq<string>)
  {
    forall i, j :: 0 <= i < j < |keys| ==> keys[i] != keys[j]
  }

  lemma {:induction false} PositionInPrefix(p: seq<string>, y: string, x: string)
    requires x in p
    ensures Position(p + [y], x) == Position(p, x) < |p|
  {
    if p[0] != x {
      assert (p + [y])[1..] == p[1..] + [y];
      PositionInPrefix(p[1..], y, x);
    }
  }

  lemma {:induction false} PositionOfLast(p: seq<string>, x: string)
    requires x !in p
    ensures Position(p + [x], x) == |p|
  {
    if p != [] {
      assert (p + [x])[1..] == p[1..] + [x];
      PositionOfLast(p[1..], x);
    }
  }

  /** A key is kept iff it is listed and its value is truthy. */
  lemma {:induction false} KeptMembership(raw: map<string, Value>, keys: seq<string>)
    ensures forall k :: k in Kept(raw, keys) <==> k in keys && Exported(raw, k)
    decreases |keys|
  {
    if keys != [] {
      var init := keys[..|keys| - 1];
      assert keys == init + [keys[|keys| - 1]];
      KeptMembership(raw, init);
    }
  }

  /** Kept keys appear in the order of the list they are drawn from. */
  lemma {:induction false} KeptInListOrder(raw: map<string, Value>, keys: seq<string>)
    requires Distinct(keys)
    ensures forall i, j :: 0 <= i < j < |Kept(raw, keys)| ==>
              Position(keys, Kept(raw, keys)[i]) < Position(keys, Kept(raw, keys)[j])
    decreases |keys|
  {
    if keys != [] {
      var init := keys[..|keys| - 1];
      var last := keys[|keys| - 1];
      assert keys == init + [last];
      KeptInListOrder(raw, init);
      KeptMembership(raw, init);
      var k0 := Kept(raw, init);
      var k := Kept(raw, keys);
      forall i, j | 0 <= i < j < |k|
        ensures Position(keys, k[i]) < Position(keys, k[j])
      {
        assert k[i] == k0[i] && k[i] in init;
        PositionInPrefix(init, last, k[i]);
        if j < |k0| {
          assert k[j] == k0[j] && k[j] in init;
          PositionInPrefix(init, last, k[j]);
        } else {
          assert k[j] == last;
          assert last !in init by {
            forall m | 0 <= m < |init| ensures init[m] != last {
              assert init[m] == keys[m];
            }
          }
          PositionOfLast(init, last);
        }
      }
    }
  }

  /** The result holds exactly the kept keys, each with its serialised value. */
  lemma {:induction false} CollectKeys(raw: map<string, Value>, keys: seq<string>)
    requires Collect(raw, keys).Success?
    ensures Keys(Collect(raw, keys).value) == Kept(raw, keys)
    ensures forall i :: 0 <= i < |Collect(raw, keys).value| ==>
              var f := Collect(raw, keys).value[i];
              Exported(raw, f.0) && Serialize(raw[f.0]) == Some(f.1)
    decreases |keys|
  {
    if keys != [] {
      var init := keys[..|keys| - 1];
      CollectKeys(raw, init);
    }
  }

  /** Over a list without repeats, no key appears twice in the result. */
  lemma CollectDistinct(raw: map<string, Value>, keys: seq<string>)
    requires Distinct(keys) && Collect(raw, keys).Success?
    ensures Distinct(Keys(Collect(raw, keys).value))
  {
    CollectKeys(raw, keys);
    KeptInListOrder(raw, keys);
    var k := Kept(raw, keys);
    forall i, j | 0 <= i < j < |k|
      ensures k[i] != k[j]
    {
      assert Position(keys, k[i]) < Position(keys, k[j]);
    }
  }

  /** `processData` fails iff some kept export cannot be serialised. */
  lemma {:induction false} CollectFailsIff(raw: map<string, Value>, keys: seq<string>)
    ensures Collect(raw, keys).Failure? <==>
              exists i :: 0 <= i < |keys| && Exported(raw, keys[i]) && Serialize(raw[keys[i]]).None?
    decreases |keys|
  {
    if keys != [] {
      var init := keys[..|keys| - 1];
      CollectFailsIff(raw, init);
      if exists i :: 0 <= i < |keys| && Exported(raw, keys[i]) && Serialize(raw[keys[i]]).None? {
        var i :| 0 <= i < |keys| && Exported(raw, keys[i]) && Serialize(raw[keys[i]]).None?;
        if i < |keys| - 1 {
          assert init[i] == keys[i];
        }
      } else {
        forall i | 0 <= i < |init|
          ensures !(Exported(raw, init[i]) && Serialize(raw[init[i]]).None?)
        {
          assert init[i] == keys[i];
        }
      }
    }
  }

  /**
   * The shape of `processData`'s result: its keys are drawn only from the
   * six listed exports, in list order; a listed export appears iff its value
   * is truthy; each appears with its serialised value, which holds no function.
   */
  lemma ProcessOutputShape(raw: map<string, Value>)
    requires Process(raw).Success?
    ensures forall k :: k in Keys(Process(raw).value) <==> k in IncludeKeys && Exported(raw, k)
    ensures forall i, j :: 0 <= i < j < |Process(raw).value| ==>
              Position(IncludeKeys, Process(raw).value[i].0) < Position(IncludeKeys, Process(raw).value[j].0)
    ensures forall i :: 0 <= i < |Process(raw).value| ==>
              var f := Process(raw).value[i];
              Exported(raw, f.0) && Serialize(raw[f.0]) == Some(f.1) && FunctionFree(f.1)
  {
    var fs := Process(raw).value;
    CollectKeys(raw, IncludeKeys);
    KeptMembership(raw, IncludeKeys);
    assert Distinct(IncludeKeys);
    KeptInListOrder(raw, IncludeKeys);
    forall i | 0 <= i < |fs|
      ensures FunctionFree(fs[i].1)
    {
      SerializeFunctionFree(raw[fs[i].0]);
    }
    forall i, j | 0 <= i < j < |fs|
      ensures Position(IncludeKeys, fs[i].0) < Position(IncludeKeys, fs[j].0)
    {
      assert fs[i].0 == Keys(fs)[i] && fs[j].0 == Keys(fs)[j];
    }
  }

  /** With every `displayName` a string, `processData` never throws. */
  lemma ProcessSucceeds(raw: map<string, Value>)
    requires forall k :: k in raw ==> StringDisplayNames(raw[k])
    ensures Process(raw).Success?
  {
    CollectFailsIff(raw, IncludeKeys);
    forall i | 0 <= i < |IncludeKeys| && Exported(raw, IncludeKeys[i])
      ensures Serialize(raw[IncludeKeys[i]]).Some?
    {
      StringDisplayNamesCanonical(raw[IncludeKeys[i]]);
    }
  }

  // ---------------------------------------------------------------------------
  // Running processData on its own output

  /** The result object read back as a module of exports. */
  function AsExports(fields: seq<Field>): map<string, Value>
  {
    if fields == [] then map[]
    else
      var last := fields[|fields| - 1];
      AsExports(fields[..|fields| - 1])[last.0 := last.1]
  }

  lemma AsExportsAppend(fields: seq<Field>, f: Field)
    ensures AsExports(fields + [f]) == AsExports(fields)[f.0 := f.1]
  {
    assert (fields + [f])[..|fields|] == fields;
  }

  lemma {:induction false} CollectExports(raw: map<string, Value>, keys: seq<string>)
    requires Collect(raw, keys).Success?
    ensures var out := AsExports(Collect(raw, keys).value);
            forall k :: k in out ==> k in keys && Exported(raw, k) && Serialize(raw[k]) == Some(out[k])
    ensures var out := AsExports(Collect(raw, keys).value);
            forall k :: k in keys && Exported(raw, k) ==> k in out
    decreases |keys|
  {
    if keys != [] {
      var init := keys[..|keys| - 1];
      var last := keys[|keys| - 1];
      assert keys == init + [last];
      CollectExports(raw, init);
      var fs0 := Collect(raw, init).value;
      var out0 := AsExports(fs0);
      var e := Export(raw, last);
      var out := AsExports(Collect(raw, keys).value);
      if e.value.Some? {
        AsExportsAppend(fs0, (last, e.value.value));
        assert out == out0[last := e.value.value];
      } else {
        assert out == out0;
        assert !Exported(raw, last);
      }
    }
  }

  lemma {:induction false} CollectAgrees(a: map<string, Value>, b: map<string, Value>, keys: seq<string>)
    requires forall k :: k in keys ==> Export(a, k) == Export(b, k)
    ensures Collect(a, keys) == Collect(b, keys)
    decreases |keys|
  {
    if keys != [] {
      var init := keys[..|keys| - 1];
      assert keys[|keys| - 1] in keys;
      forall k | k in init ensures k in keys {
        var m :| 0 <= m < |init| && init[m] == k;
        assert keys[m] == k;
      }
      CollectAgrees(a, b, init);
    }
  }

  /**
   * Idempotence: when every `displayName` is a string, `processData` applied
   * to its own output returns that output unchanged.
   */
  lemma ProcessIdempotent(raw: map<string, Value>)
    requires forall k :: k in raw ==> StringDisplayNames(raw[k])
    ensures Process(raw).Success?
    ensures Process(AsExports(Process(raw).value)) == Process(raw)
  {
    ProcessSucceeds(raw);
    var out := AsExports(Process(raw).value);
    CollectExports(raw, IncludeKeys);
    forall k | k in IncludeKeys
      ensures Export(out, k) == Export(raw, k)
    {
      if Exported(raw, k) {
        var y := out[k];
        StringDisplayNamesCanonical(raw[k]);
        CanonicalFixed(y);
        assert Exported(out, k);
      }
    }
    CollectAgrees(out, raw, IncludeKeys);
  }
}
