/**
 * Canonical JSON (src/evidence/hashing.mjs): `sortValue` and the text that
 * `JSON.stringify` prints for its result.
 */
module Json {
  import opened Wrappers
  import Text

  /**
   * A value of the source's data model. A number is kept as the numeral the
   * platform prints for it; NaN and the infinities are `NonFinite`. Object
   * fields are listed in own-property order.
   */
  datatype Value =
    | Undefined
    | Null
    | Bool(b: bool)
    | NonFinite
    | Num(lit: string)
    | Str(s: string)
    | Arr(elems: seq<Value>)
    | Obj(fields: seq<Field>)

  datatype Field = Field(key: string, val: Value)

  const PROTO := "__proto__"

  predicate NumeralChar(c: char) {
    '0' <= c <= '9' || c in "+-.e"
  }

  predicate Numeral(s: string) {
    s != "" && ('0' <= s[0] <= '9' || s[0] == '-') && forall i :: 0 <= i < |s| ==> NumeralChar(s[i])
  }

  function Keys(fs: seq<Field>): set<string> {
    if fs == [] then {} else {fs[0].key} + Keys(fs[1..])
  }

  /** What the platform guarantees of its values: numerals, and no key twice in one object. */
  predicate Wf(v: Value)
    decreases v, 1
  {
    match v
    case Num(lit) => Numeral(lit)
    case Arr(es) => WfElems(es)
    case Obj(fs) => WfFields(fs)
    case _ => true
  }

  predicate WfElems(es: seq<Value>)
    decreases es, 0
  {
    es != [] ==> Wf(es[0]) && WfElems(es[1..])
  }

  predicate WfFields(fs: seq<Field>)
    decreases fs, 0
  {
    fs != [] ==> Wf(fs[0].val) && fs[0].key !in Keys(fs[1..]) && WfFields(fs[1..])
  }

  // ---------------------------------------------------------------- property order

  /** Array indices come first in own-property order. */
  predicate IsIndex(k: string) {
    && 0 < |k| <= 10
    && (forall i :: 0 <= i < |k| ==> '0' <= k[i] <= '9')
    && (k[0] == '0' ==> |k| == 1)
    && (|k| == 10 ==> Text.Less(k, "4294967295"))
  }

  /** Indices by numeric value, then the other keys by code unit. */
  predicate KeyLess(a: string, b: string) {
    if IsIndex(a) then IsIndex(b) ==> |a| < |b| || (|a| == |b| && Text.Less(a, b))
    else !IsIndex(b) && Text.Less(a, b)
  }

  lemma KeyLessTransitive(a: string, b: string, c: string)
    requires KeyLess(a, b) && KeyLess(b, c)
    ensures KeyLess(a, c)
  {
    if Text.Less(a, b) && Text.Less(b, c) {
      Text.LessTransitive(a, b, c);
    }
  }

  lemma KeyLessIrreflexive(a: string)
    ensures !KeyLess(a, a)
  {
    Text.LessIrreflexive(a);
  }

  lemma KeyLessTotal(a: string, b: string)
    ensures KeyLess(a, b) || a == b || KeyLess(b, a)
  {
    Text.LessTotal(a, b);
  }

  /**
   * `out[k] = val` on a plain object: an index goes to its numeric place, any
   * other new key to the end, and `__proto__` is the prototype accessor, which
   * creates no property.
   */
  function SetProperty(props: seq<Field>, k: string, val: Value): seq<Field> {
    if k == PROTO then props
    else if props == [] then [Field(k, val)]
    else if props[0].key == k then [Field(k, val)] + props[1..]
    else if IsIndex(k) && KeyLess(k, props[0].key) then [Field(k, val)] + props
    else [props[0]] + SetProperty(props[1..], k, val)
  }

  // ---------------------------------------------------------------- sortValue

  function Insert(f: Field, fs: seq<Field>): seq<Field> {
    if fs == [] || !Text.Less(fs[0].key, f.key) then [f] + fs
    else [fs[0]] + Insert(f, fs[1..])
  }

  /** `Object.keys(v).sort()`, each key with its value. */
  function SortByKey(fs: seq<Field>): (r: seq<Field>)
    ensures |r| == |fs|
  {
    if fs == [] then [] else InsertLength(fs[0], SortByKey(fs[1..])); Insert(fs[0], SortByKey(fs[1..]))
  }

  lemma {:induction false} InsertLength(f: Field, fs: seq<Field>)
    ensures |Insert(f, fs)| == |fs| + 1
  {
    if fs != [] && Text.Less(fs[0].key, f.key) {
      InsertLength(f, fs[1..]);
    }
  }

  function AssignAll(props: seq<Field>, fs: seq<Field>): seq<Field>
    decreases fs
  {
    if fs == [] then props else AssignAll(SetProperty(props, fs[0].key, fs[0].val), fs[1..])
  }

  function SortValue(v: Value): Value
    decreases v, 1
  {
    match v
    case Arr(es) => Arr(SortElems(es))
    case Obj(fs) => Obj(AssignAll([], SortByKey(SortVals(fs))))
    case _ => v
  }

  function SortElems(es: seq<Value>): (r: seq<Value>)
    decreases es, 0
  {
    if es == [] then [] else [SortValue(es[0])] + SortElems(es[1..])
  }

  function SortVals(fs: seq<Field>): (r: seq<Field>)
    decreases fs, 0
  {
    if fs == [] then [] else [Field(fs[0].key, SortValue(fs[0].val))] + SortVals(fs[1..])
  }

  // ---------------------------------------------------------------- JSON.stringify

  function HexDigit(n: int): char
    requires 0 <= n < 16
  {
    "0123456789abcdef"[n]
  }

  /** The letter of a two-character escape. */
  function ShortEscape(c: char): Option<char> {
    var u := c as int;
    if c == '\"' || c == '\\' then Some(c)
    else if u == 8 then Some('b')
    else if u == 9 then Some('t')
    else if u == 10 then Some('n')
    else if u == 12 then Some('f')
    else if u == 13 then Some('r')
    else None
  }

  function EscapeChar(c: char): string {
    if ShortEscape(c).Some? then ['\\', ShortEscape(c).value]
    else if (c as int) < 32 then ['\\', 'u', '0', '0', HexDigit(c as int / 16), HexDigit(c as int % 16)]
    else [c]
  }

  function Escape(s: string): string {
    if s == "" then "" else EscapeChar(s[0]) + Escape(s[1..])
  }

  function Quote(s: string): string {
    "\"" + Escape(s) + "\""
  }

  /** The text of a value inside an array; at the top level `undefined` has no text. */
  function Render(v: Value): string
    decreases v, 1
  {
    match v
    case Undefined => "null"
    case Null => "null"
    case NonFinite => "null"
    case Bool(b) => if b then "true" else "false"
    case Num(lit) => lit
    case Str(s) => Quote(s)
    case Arr(es) => "[" + RenderElems(es, "") + "]"
    case Obj(fs) => "{" + RenderFields(fs, "") + "}"
  }

  function RenderElems(es: seq<Value>, sep: string): string
    decreases es, 0
  {
    if es == [] then "" else sep + (Render(es[0]) + RenderElems(es[1..], ","))
  }

  function RenderFields(fs: seq<Field>, sep: string): string
    decreases fs, 0
  {
    if fs == [] then ""
    else if fs[0].val.Undefined? then RenderFields(fs[1..], sep)
    else sep + (Quote(fs[0].key) + (":" + (Render(fs[0].val) + RenderFields(fs[1..], ","))))
  }

  /** `canonicalJson(value)`. */
  function CanonicalJson(v: Value): Option<string> {
    if v.Undefined? then None else Some(Render(SortValue(v)))
  }

  // ---------------------------------------------------------------- the loops of sortValue

  function Lookup(fs: seq<Field>, k: string): Value {
    if fs == [] then Undefined
    else if fs[0].key == k then fs[0].val
    else Lookup(fs[1..], k)
  }

  /** `sortValue`, filling `out` key by key as the source does. */
  method SortValueLoop(v: Value) returns (r: Value)
    requires Wf(v)
    ensures r == SortValue(v)
    decreases v
  {
    match v
    case Arr(es) =>
      var out := [];
      for i := 0 to |es|
        invariant out + SortElems(es[i..]) == SortElems(es)
        invariant WfElems(es[i..])
      {
        var e := SortValueLoop(es[i]);
        assert es[i..][1..] == es[i + 1..];
        out := out + [e];
      }
      assert es[|es|..] == [];
      r := Arr(out);
    case Obj(fs) =>
      var keys := SortByKey(fs);
      SortCommutes(fs);
      var props := [];
      SortKeepsAll(fs);
      for i := 0 to |keys|
        invariant AssignAll(props, SortVals(keys[i..])) == AssignAll([], SortVals(keys))
      {
        var k := keys[i].key;
        WfLookup(fs, keys[i]);
        var sub := SortValueLoop(Lookup(fs, k));
        assert keys[i..][1..] == keys[i + 1..];
        assert SortVals(keys[i..]) == [Field(k, sub)] + SortVals(keys[i + 1..]);
        props := SetProperty(props, k, sub);
      }
      assert keys[|keys|..] == [];
      r := Obj(props);
    case _ =>
      r := v;
  }

  lemma {:induction false} SortCommutes(fs: seq<Field>)
    ensures SortByKey(SortVals(fs)) == SortVals(SortByKey(fs))
  {
    if fs != [] {
      SortCommutes(fs[1..]);
      InsertCommutes(fs[0], SortByKey(fs[1..]));
    }
  }

  lemma {:induction false} InsertCommutes(f: Field, fs: seq<Field>)
    ensures SortVals(Insert(f, fs)) == Insert(Field(f.key, SortValue(f.val)), SortVals(fs))
  {
    if fs != [] && Text.Less(fs[0].key, f.key) {
      InsertCommutes(f, fs[1..]);
    }
  }

  lemma {:induction false} InsertKeepsAll(f: Field, fs: seq<Field>, g: Field)
    requires g in Insert(f, fs)
    ensures g == f || g in fs
  {
    if fs != [] && Text.Less(fs[0].key, f.key) && g != fs[0] {
      InsertKeepsAll(f, fs[1..], g);
    }
  }

  lemma {:induction false} SortKeepsAll(fs: seq<Field>)
    ensures forall g :: g in SortByKey(fs) ==> g in fs
  {
    if fs != [] {
      SortKeepsAll(fs[1..]);
      forall g | g in SortByKey(fs)
        ensures g in fs
      {
        InsertKeepsAll(fs[0], SortByKey(fs[1..]), g);
      }
    }
  }

  /** A listed field is what a lookup of its key finds, and is a part of the object. */
  lemma {:induction false} WfLookup(fs: seq<Field>, f: Field)
    requires WfFields(fs) && f in fs
    ensures Lookup(fs, f.key) == f.val && Wf(f.val) && f.val < Obj(fs)
  {
    if f != fs[0] {
      KeyOfMember(fs[1..], f);
      WfLookup(fs[1..], f);
    }
  }

  lemma {:induction false} KeyOfMember(fs: seq<Field>, f: Field)
    requires f in fs
    ensures f.key in Keys(fs)
  {
    if f != fs[0] {
      KeyOfMember(fs[1..], f);
    }
  }
}
