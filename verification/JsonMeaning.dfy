/**
 * What canonical text says about a value: two values get the same text exactly
 * when they show the same tree, and a value survives printing and reading
 * exactly when nothing in it is of the kinds the printer drops or replaces.
 */
module JsonMeaning {
  import opened Wrappers
  import opened Json
  import opened JsonReader
  import Text

  /** A value up to the order of object keys. */
  datatype Tree =
    | TUndefined
    | TNull
    | TBool(b: bool)
    | TNonFinite
    | TNum(lit: string)
    | TStr(s: string)
    | TArr(elems: seq<Tree>)
    | TObj(fields: map<string, Tree>)

  /** The data of a value: everything but key order and undefined-valued fields. */
  function Data(v: Value): Tree
    decreases v, 1
  {
    match v
    case Undefined => TUndefined
    case Null => TNull
    case Bool(b) => TBool(b)
    case NonFinite => TNonFinite
    case Num(lit) => TNum(lit)
    case Str(s) => TStr(s)
    case Arr(es) => TArr(DataElems(es))
    case Obj(fs) => TObj(DataFields(fs))
  }

  function DataElems(es: seq<Value>): seq<Tree>
    decreases es, 0
  {
    if es == [] then [] else [Data(es[0])] + DataElems(es[1..])
  }

  function DataFields(fs: seq<Field>): (m: map<string, Tree>)
    ensures m.Keys <= Keys(fs)
    decreases fs, 0
  {
    if fs == [] then map[]
    else
      var m := DataFields(fs[1..]);
      if fs[0].val.Undefined? then m else m[fs[0].key := Data(fs[0].val)]
  }

  /** The part of the data that canonical text shows. */
  function Shown(v: Value): Tree
    decreases v, 1
  {
    match v
    case Undefined => TNull
    case Null => TNull
    case Bool(b) => TBool(b)
    case NonFinite => TNull
    case Num(lit) => TNum(lit)
    case Str(s) => TStr(s)
    case Arr(es) => TArr(ShownElems(es))
    case Obj(fs) => TObj(ShownFields(fs))
  }

  function ShownElems(es: seq<Value>): seq<Tree>
    decreases es, 0
  {
    if es == [] then [] else [Shown(es[0])] + ShownElems(es[1..])
  }

  predicate Dropped(f: Field) {
    f.val.Undefined? || f.key == PROTO
  }

  function ShownFields(fs: seq<Field>): (m: map<string, Tree>)
    ensures m.Keys <= Keys(fs) && PROTO !in m
    decreases fs, 0
  {
    if fs == [] then map[]
    else
      var m := ShownFields(fs[1..]);
      if Dropped(fs[0]) then m else m[fs[0].key := Shown(fs[0].val)]
  }

  /**
   * Nothing the printer loses: no NaN or infinity, `undefined` only as a field's
   * value, and no own key `__proto__` with a value.
   */
  predicate Lossless(v: Value)
    decreases v, 1
  {
    match v
    case Undefined => false
    case NonFinite => false
    case Arr(es) => LosslessElems(es)
    case Obj(fs) => LosslessFields(fs)
    case _ => true
  }

  predicate LosslessElems(es: seq<Value>)
    decreases es, 0
  {
    es != [] ==> Lossless(es[0]) && LosslessElems(es[1..])
  }

  predicate LosslessFields(fs: seq<Field>)
    decreases fs, 0
  {
    fs != [] ==>
      && (fs[0].val.Undefined? || (fs[0].key != PROTO && Lossless(fs[0].val)))
      && LosslessFields(fs[1..])
  }

  lemma {:induction false} ShownIsDataIff(v: Value)
    requires Wf(v)
    ensures Shown(v) == Data(v) <==> Lossless(v)
    decreases v, 1
  {
    match v
    case Arr(es) => ShownIsDataElems(es);
    case Obj(fs) => ShownIsDataFields(fs);
    case _ =>
  }

  lemma {:induction false} ShownIsDataElems(es: seq<Value>)
    requires WfElems(es)
    ensures ShownElems(es) == DataElems(es) <==> LosslessElems(es)
    decreases es, 0
  {
    if es != [] {
      ShownIsDataIff(es[0]);
      ShownIsDataElems(es[1..]);
      var s, d := ShownElems(es), DataElems(es);
      assert s[0] == Shown(es[0]) && d[0] == Data(es[0]);
      assert s[1..] == ShownElems(es[1..]) && d[1..] == DataElems(es[1..]);
    }
  }

  lemma {:induction false} ShownIsDataFields(fs: seq<Field>)
    requires WfFields(fs)
    ensures ShownFields(fs) == DataFields(fs) <==> LosslessFields(fs)
    decreases fs, 0
  {
    if fs != [] {
      ShownIsDataIff(fs[0].val);
      ShownIsDataFields(fs[1..]);
      var k := fs[0].key;
      var s, d := ShownFields(fs), DataFields(fs);
      var s', d' := ShownFields(fs[1..]), DataFields(fs[1..]);
      assert s' == s - {k} && d' == d - {k};
      if s == d && !fs[0].val.Undefined? {
        assert k in s;
        assert s[k] == Shown(fs[0].val) && d[k] == Data(fs[0].val);
      }
    }
  }

  // ---------------------------------------------------------------- the canonical form

  /** Replaces and drops what the printer replaces and drops. */
  function Clean(v: Value): Value
    decreases v, 1
  {
    match v
    case Undefined => Null
    case NonFinite => Null
    case Arr(es) => Arr(CleanElems(es))
    case Obj(fs) => Obj(CleanFields(fs))
    case _ => v
  }

  function CleanElems(es: seq<Value>): seq<Value>
    decreases es, 0
  {
    if es == [] then [] else [Clean(es[0])] + CleanElems(es[1..])
  }

  function CleanFields(fs: seq<Field>): (r: seq<Field>)
    ensures Keys(r) <= Keys(fs)
    decreases fs, 0
  {
    if fs == [] then []
    else if fs[0].val.Undefined? then CleanFields(fs[1..])
    else [Field(fs[0].key, Clean(fs[0].val))] + CleanFields(fs[1..])
  }

  function Canon(v: Value): Value {
    Clean(SortValue(v))
  }

  lemma {:induction false} RenderClean(v: Value)
    ensures Render(Clean(v)) == Render(v)
    decreases v, 1
  {
    match v
    case Arr(es) => RenderCleanElems(es, "");
    case Obj(fs) => RenderCleanFields(fs, "");
    case _ =>
  }

  lemma {:induction false} RenderCleanElems(es: seq<Value>, sep: string)
    ensures RenderElems(CleanElems(es), sep) == RenderElems(es, sep)
    decreases es, 0
  {
    if es != [] {
      RenderClean(es[0]);
      RenderCleanElems(es[1..], ",");
      assert CleanElems(es)[1..] == CleanElems(es[1..]);
    }
  }

  lemma {:induction false} RenderCleanFields(fs: seq<Field>, sep: string)
    ensures RenderFields(CleanFields(fs), sep) == RenderFields(fs, sep)
    decreases fs, 0
  {
    if fs != [] {
      RenderClean(fs[0].val);
      if fs[0].val.Undefined? {
        RenderCleanFields(fs[1..], sep);
      } else {
        RenderCleanFields(fs[1..], ",");
        assert CleanFields(fs)[1..] == CleanFields(fs[1..]);
      }
    }
  }

  /** Objects sorted by property order and free of `__proto__`, all the way down. */
  predicate Ordered(v: Value)
    decreases v, 1
  {
    match v
    case Num(lit) => Numeral(lit)
    case Arr(es) => OrderedElems(es)
    case Obj(fs) => SortedFields(fs) && OrderedVals(fs)
    case _ => true
  }

  predicate OrderedElems(es: seq<Value>)
    decreases es, 0
  {
    es != [] ==> Ordered(es[0]) && OrderedElems(es[1..])
  }

  predicate OrderedVals(fs: seq<Field>)
    decreases fs, 0
  {
    fs != [] ==> fs[0].key != PROTO && Ordered(fs[0].val) && OrderedVals(fs[1..])
  }

  predicate SortedFields(fs: seq<Field>) {
    fs != [] ==> (forall k :: k in Keys(fs[1..]) ==> KeyLess(fs[0].key, k)) && SortedFields(fs[1..])
  }

  lemma {:induction false} CleanKeepsOrder(v: Value)
    requires Ordered(v)
    ensures Ordered(Clean(v)) && Printable(Clean(v)) && Shown(Clean(v)) == Shown(v) && Lossless(Clean(v))
    ensures Wf(Clean(v))
    decreases v, 1
  {
    match v
    case Arr(es) => CleanKeepsElems(es);
    case Obj(fs) => CleanKeepsFields(fs);
    case _ =>
  }

  lemma {:induction false} CleanKeepsElems(es: seq<Value>)
    requires OrderedElems(es)
    ensures var r := CleanElems(es);
            OrderedElems(r) && PrintableElems(r) && ShownElems(r) == ShownElems(es) && LosslessElems(r) && WfElems(r)
    decreases es, 0
  {
    if es != [] {
      CleanKeepsOrder(es[0]);
      CleanKeepsElems(es[1..]);
      assert CleanElems(es)[1..] == CleanElems(es[1..]);
    }
  }

  lemma {:induction false} CleanKeepsFields(fs: seq<Field>)
    requires SortedFields(fs) && OrderedVals(fs)
    ensures var r := CleanFields(fs);
            && SortedFields(r) && OrderedVals(r) && PrintableFields(r)
            && ShownFields(r) == ShownFields(fs) && LosslessFields(r) && WfFields(r)
    decreases fs, 0
  {
    if fs != [] {
      CleanKeepsOrder(fs[0].val);
      CleanKeepsFields(fs[1..]);
      if !fs[0].val.Undefined? {
        assert CleanFields(fs)[1..] == CleanFields(fs[1..]);
        KeyLessIrreflexive(fs[0].key);
      }
    }
  }

  // ---------------------------------------------------------------- sortValue sorts

  /** Strictly sorted by code units. */
  predicate SortedKeys(fs: seq<Field>) {
    fs != [] ==> (forall k :: k in Keys(fs[1..]) ==> Text.Less(fs[0].key, k)) && SortedKeys(fs[1..])
  }

  lemma {:induction false} InsertSorts(f: Field, fs: seq<Field>)
    requires SortedKeys(fs) && f.key !in Keys(fs)
    ensures SortedKeys(Insert(f, fs)) && Keys(Insert(f, fs)) == {f.key} + Keys(fs)
    ensures ShownFields(Insert(f, fs)) == ShownFields([f] + fs)
    ensures OrderedInside(Insert(f, fs)) <==> OrderedInside([f] + fs)
  {
    assert ([f] + fs)[1..] == fs;
    if fs == [] {
    } else if Text.Less(fs[0].key, f.key) {
      InsertSorts(f, fs[1..]);
      var r := Insert(f, fs[1..]);
      assert Insert(f, fs)[1..] == r;
      assert ([f] + fs[1..])[1..] == fs[1..];
    } else {
      Text.LessTotal(fs[0].key, f.key);
      forall k | k in Keys(fs)
        ensures Text.Less(f.key, k)
      {
        if k != fs[0].key { Text.LessTransitive(f.key, fs[0].key, k); }
      }
    }
  }

  /** Every value is ordered; keys are free. */
  predicate OrderedInside(fs: seq<Field>) {
    fs != [] ==> Ordered(fs[0].val) && OrderedInside(fs[1..])
  }

  lemma {:induction false} SortByKeySorts(fs: seq<Field>)
    requires DistinctKeys(fs)
    ensures SortedKeys(SortByKey(fs)) && Keys(SortByKey(fs)) == Keys(fs)
    ensures ShownFields(SortByKey(fs)) == ShownFields(fs)
    ensures OrderedInside(SortByKey(fs)) <==> OrderedInside(fs)
  {
    if fs != [] {
      SortByKeySorts(fs[1..]);
      InsertSorts(fs[0], SortByKey(fs[1..]));
      assert ([fs[0]] + SortByKey(fs[1..]))[1..] == SortByKey(fs[1..]);
    }
  }

  predicate DistinctKeys(fs: seq<Field>) {
    fs != [] ==> fs[0].key !in Keys(fs[1..]) && DistinctKeys(fs[1..])
  }

  lemma {:induction false} SetPropertyAdds(props: seq<Field>, k: string, v: Value)
    requires OrderedVals(props) && Ordered(v) && k !in Keys(props)
    ensures var r := SetProperty(props, k, v);
            && OrderedVals(r)
            && Keys(r) == (if k == PROTO then Keys(props) else Keys(props) + {k})
            && ShownFields(r) == (if Dropped(Field(k, v)) then ShownFields(props) else ShownFields(props)[k := Shown(v)])
  {
    var r := SetProperty(props, k, v);
    if k == PROTO || props == [] {
    } else {
      if IsIndex(k) && KeyLess(k, props[0].key) {
        assert r[1..] == props;
      } else {
        SetPropertyAdds(props[1..], k, v);
        assert r[1..] == SetProperty(props[1..], k, v);
      }
    }
  }

  /** A key other than an index may only be added when it comes after every other such key. */
  predicate MayAdd(props: seq<Field>, k: string) {
    IsIndex(k) || forall j :: j in Keys(props) && !IsIndex(j) ==> Text.Less(j, k)
  }

  lemma AfterOrder(props: seq<Field>, k: string)
    requires props != [] && MayAdd(props, k) && k !in Keys(props)
    requires !(IsIndex(k) && KeyLess(k, props[0].key))
    ensures KeyLess(props[0].key, k) && MayAdd(props[1..], k)
  {
    KeyLessTotal(k, props[0].key);
  }

  lemma {:induction false} SetPropertySorts(props: seq<Field>, k: string, v: Value)
    requires SortedFields(props) && OrderedVals(props) && Ordered(v) && k !in Keys(props)
    requires MayAdd(props, k)
    ensures SortedFields(SetProperty(props, k, v))
  {
    var r := SetProperty(props, k, v);
    if k != PROTO && props != [] {
      if IsIndex(k) && KeyLess(k, props[0].key) {
        assert r[1..] == props;
        forall j | j in Keys(props)
          ensures KeyLess(k, j)
        {
          if j != props[0].key { KeyLessTransitive(k, props[0].key, j); }
        }
      } else {
        AfterOrder(props, k);
        SetPropertySorts(props[1..], k, v);
        SetPropertyAdds(props[1..], k, v);
        assert r[1..] == SetProperty(props[1..], k, v);
      }
    }
  }

  predicate MayAddAll(props: seq<Field>, fs: seq<Field>) {
    forall k :: k in Keys(fs) ==> MayAdd(props, k)
  }

  lemma MayAddRest(props: seq<Field>, fs: seq<Field>, next: seq<Field>)
    requires fs != [] && MayAddAll(props, fs) && Keys(next) <= Keys(props) + {fs[0].key}
    requires SortedKeys(fs)
    ensures MayAdd(props, fs[0].key) && MayAddAll(next, fs[1..])
  {
    assert fs[0].key in Keys(fs);
    forall k | k in Keys(fs[1..])
      ensures MayAdd(next, k)
    {
      assert MayAdd(props, k);
    }
  }

  lemma AddBeforeOrAfter<T>(m: map<string, T>, k: string, x: T, rest: map<string, T>)
    requires k !in rest
    ensures m[k := x] + rest == m + rest[k := x]
  {
  }

  lemma {:induction false} AssignAllAdds(props: seq<Field>, fs: seq<Field>)
    requires OrderedVals(props) && OrderedInside(fs) && DistinctKeys(fs)
    requires Keys(props) !! Keys(fs)
    ensures OrderedVals(AssignAll(props, fs))
    ensures ShownFields(AssignAll(props, fs)) == ShownFields(props) + ShownFields(fs)
    decreases fs
  {
    if fs != [] {
      var f := fs[0];
      SetPropertyAdds(props, f.key, f.val);
      AssignAllAdds(SetProperty(props, f.key, f.val), fs[1..]);
      AddBeforeOrAfter(ShownFields(props), f.key, Shown(f.val), ShownFields(fs[1..]));
    }
  }

  lemma {:induction false} AssignAllSorts(props: seq<Field>, fs: seq<Field>)
    requires SortedFields(props) && OrderedVals(props) && SortedKeys(fs) && OrderedInside(fs) && DistinctKeys(fs)
    requires Keys(props) !! Keys(fs) && MayAddAll(props, fs)
    ensures SortedFields(AssignAll(props, fs))
    decreases fs
  {
    if fs != [] {
      var k := fs[0].key;
      var next := SetProperty(props, k, fs[0].val);
      SetPropertyAdds(props, k, fs[0].val);
      MayAddRest(props, fs, next);
      SetPropertySorts(props, k, fs[0].val);
      AssignAllSorts(next, fs[1..]);
    }
  }

  lemma SortObject(fs: seq<Field>)
    requires OrderedInside(fs) && DistinctKeys(fs)
    ensures var r := AssignAll([], SortByKey(fs));
            SortedFields(r) && OrderedVals(r) && ShownFields(r) == ShownFields(fs)
  {
    var sorted := SortByKey(fs);
    SortByKeySorts(fs);
    SortedKeysDistinct(sorted);
    AssignAllAdds([], sorted);
    AssignAllSorts([], sorted);
    assert map[] + ShownFields(sorted) == ShownFields(sorted);
  }

  lemma {:induction false} SortedKeysDistinct(fs: seq<Field>)
    requires SortedKeys(fs)
    ensures DistinctKeys(fs)
  {
    if fs != [] {
      SortedKeysDistinct(fs[1..]);
      Text.LessIrreflexive(fs[0].key);
    }
  }

  lemma {:induction false} SortValueOrders(v: Value)
    requires Wf(v)
    ensures Ordered(SortValue(v)) && Shown(SortValue(v)) == Shown(v)
    decreases v, 1
  {
    match v
    case Arr(es) => SortElemsOrders(es);
    case Obj(fs) =>
      SortValsOrders(fs);
      SortObject(SortVals(fs));
    case _ =>
  }

  lemma {:induction false} SortElemsOrders(es: seq<Value>)
    requires WfElems(es)
    ensures OrderedElems(SortElems(es)) && ShownElems(SortElems(es)) == ShownElems(es)
    decreases es, 0
  {
    if es != [] {
      SortValueOrders(es[0]);
      SortElemsOrders(es[1..]);
      assert SortElems(es)[1..] == SortElems(es[1..]);
    }
  }

  lemma {:induction false} SortValsOrders(fs: seq<Field>)
    requires WfFields(fs)
    ensures var r := SortVals(fs);
            OrderedInside(r) && DistinctKeys(r) && Keys(r) == Keys(fs) && ShownFields(r) == ShownFields(fs)
    decreases fs, 0
  {
    if fs != [] {
      SortValueOrders(fs[0].val);
      SortValsOrders(fs[1..]);
      assert SortVals(fs)[1..] == SortVals(fs[1..]);
    }
  }

  lemma CanonForm(v: Value)
    requires Wf(v)
    ensures Ordered(Canon(v)) && Printable(Canon(v)) && Lossless(Canon(v)) && Wf(Canon(v))
    ensures Shown(Canon(v)) == Shown(v) && Render(SortValue(v)) == Render(Canon(v))
  {
    SortValueOrders(v);
    CleanKeepsOrder(SortValue(v));
    RenderClean(SortValue(v));
  }

  // ---------------------------------------------------------------- one tree, one canonical form

  lemma {:induction false} FormUnique(a: Value, b: Value)
    requires Ordered(a) && Printable(a) && Ordered(b) && Printable(b)
    requires Shown(a) == Shown(b)
    ensures a == b
    decreases a, 1
  {
    match a
    case Arr(es) => FormUniqueElems(es, b.elems);
    case Obj(fs) => FormUniqueFields(fs, b.fields);
    case _ =>
  }

  lemma {:induction false} FormUniqueElems(a: seq<Value>, b: seq<Value>)
    requires OrderedElems(a) && PrintableElems(a) && OrderedElems(b) && PrintableElems(b)
    requires ShownElems(a) == ShownElems(b)
    ensures a == b
    decreases a, 0
  {
    if a != [] && b != [] {
      assert ShownElems(a)[0] == Shown(a[0]) && ShownElems(b)[0] == Shown(b[0]);
      assert ShownElems(a)[1..] == ShownElems(a[1..]) && ShownElems(b)[1..] == ShownElems(b[1..]);
      FormUnique(a[0], b[0]);
      FormUniqueElems(a[1..], b[1..]);
      assert a == [a[0]] + a[1..] && b == [b[0]] + b[1..];
    }
  }

  lemma {:induction false} ShownKeys(fs: seq<Field>)
    requires OrderedVals(fs) && PrintableFields(fs)
    ensures ShownFields(fs).Keys == Keys(fs)
  {
    if fs != [] {
      ShownKeys(fs[1..]);
    }
  }

  lemma {:induction false} FormUniqueFields(a: seq<Field>, b: seq<Field>)
    requires SortedFields(a) && OrderedVals(a) && PrintableFields(a)
    requires SortedFields(b) && OrderedVals(b) && PrintableFields(b)
    requires ShownFields(a) == ShownFields(b)
    ensures a == b
    decreases a, 0
  {
    ShownKeys(a);
    ShownKeys(b);
    if a != [] && b != [] {
      var j, k := a[0].key, b[0].key;
      KeyLessIrreflexive(j);
      KeyLessIrreflexive(k);
      if j != k {
        assert j in Keys(b) && k in Keys(a);
        KeyLessTransitive(j, k, j);
        assert false;
      }
      var s := ShownFields(a);
      assert s[j] == Shown(a[0].val) == Shown(b[0].val);
      FormUnique(a[0].val, b[0].val);
      assert ShownFields(a[1..]) == s - {j} == ShownFields(b[1..]);
      FormUniqueFields(a[1..], b[1..]);
      assert a == [a[0]] + a[1..] && b == [b[0]] + b[1..];
    }
  }

  // ---------------------------------------------------------------- main results

  /** Two values get the same canonical text exactly when they show the same tree. */
  lemma SameTextIff(a: Value, b: Value)
    requires Wf(a) && Wf(b) && !a.Undefined? && !b.Undefined?
    ensures CanonicalJson(a) == CanonicalJson(b) <==> Shown(a) == Shown(b)
  {
    CanonForm(a);
    CanonForm(b);
    if CanonicalJson(a) == CanonicalJson(b) {
      PrintedTextReadsBack(Canon(a));
      PrintedTextReadsBack(Canon(b));
    } else if Shown(a) == Shown(b) {
      FormUnique(Canon(a), Canon(b));
    }
  }

  /** Without lossy parts, the same text means the same data, key order aside. */
  lemma SameTextSameData(a: Value, b: Value)
    requires Wf(a) && Wf(b) && Lossless(a) && Lossless(b)
    ensures CanonicalJson(a) == CanonicalJson(b) <==> Data(a) == Data(b)
  {
    SameTextIff(a, b);
    ShownIsDataIff(a);
    ShownIsDataIff(b);
  }

  /**
   * Canonical text can always be read, and gives back all of the value's data
   * exactly when the value is lossless.
   */
  lemma RoundTripIff(v: Value)
    requires Wf(v) && !v.Undefined?
    ensures var r := Read(CanonicalJson(v).value); r.Some? && Shown(r.value) == Shown(v)
    ensures var r := Read(CanonicalJson(v).value); Data(r.value) == Data(v) <==> Lossless(v)
  {
    CanonForm(v);
    PrintedTextReadsBack(Canon(v));
    ShownIsDataIff(Canon(v));
    ShownIsDataIff(v);
  }

  /**
   * An own key `__proto__` is lost: `out[k] = ...` calls the accessor, so the
   * text of an object with that key is the text of the object without it.
   */
  lemma ProtoKeyIsLost(val: Value)
    requires Wf(val) && !val.Undefined?
    ensures var v, w := Obj([Field(PROTO, val)]), Obj([]);
            Data(v) != Data(w) && CanonicalJson(v) == CanonicalJson(w)
  {
    var v, w := Obj([Field(PROTO, val)]), Obj([]);
    assert PROTO in DataFields(v.fields);
    SameTextIff(v, w);
  }
}
