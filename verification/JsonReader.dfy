/**
 * A reader for canonical text (the grammar of RFC 8259, strings as in section 7
 * with the escapes the printer uses), and the proof that it undoes the printer.
 */
module JsonReader {
  import opened Wrappers
  import opened Json
  import Text

  // ---------------------------------------------------------------- reader

  function HexValue(c: char): Option<int> {
    if '0' <= c <= '9' then Some(c as int - '0' as int)
    else if 'a' <= c <= 'f' then Some(c as int - 'a' as int + 10)
    else None
  }

  function ShortMeaning(d: char): Option<char> {
    if d == '\"' || d == '\\' then Some(d)
    else if d == 'b' then Some(8 as char)
    else if d == 't' then Some(9 as char)
    else if d == 'n' then Some(10 as char)
    else if d == 'f' then Some(12 as char)
    else if d == 'r' then Some(13 as char)
    else None
  }

  function ReadHex(t: string): Option<char> {
    if |t| < 4 || t[0] != '0' || t[1] != '0' then None
    else match (HexValue(t[2]), HexValue(t[3])) {
      case (Some(a), Some(b)) => Some((16 * a + b) as char)
      case _ => None
    }
  }

  /** Reads one possibly escaped character; gives it and what follows it. */
  function ReadChar(t: string): (r: Option<(char, string)>)
    ensures r.Some? ==> |r.value.1| < |t|
  {
    if t == "" || t[0] == '\"' then None
    else if t[0] != '\\' then Some((t[0], t[1..]))
    else if |t| < 2 then None
    else if ShortMeaning(t[1]).Some? then Some((ShortMeaning(t[1]).value, t[2..]))
    else if t[1] == 'u' && ReadHex(t[2..]).Some? then Some((ReadHex(t[2..]).value, t[6..]))
    else None
  }

  /** Reads up to and including the closing quote. */
  function ReadChars(t: string): (r: Option<(string, string)>)
    ensures r.Some? ==> |r.value.1| < |t|
  {
    if t != "" && t[0] == '\"' then Some(("", t[1..]))
    else match ReadChar(t) {
      case None => None
      case Some(cr) =>
        match ReadChars(cr.1) {
          case None => None
          case Some(sr) => Some(([cr.0] + sr.0, sr.1))
        }
    }
  }

  /** The longest prefix of numeral characters, and the rest. */
  function ReadNumeral(t: string): (r: (string, string))
    ensures r.0 + r.1 == t
  {
    if t == "" || !NumeralChar(t[0]) then ("", t)
    else var r := ReadNumeral(t[1..]); ([t[0]] + r.0, r.1)
  }

  predicate StartsWith(t: string, w: string) {
    |w| <= |t| && t[..|w|] == w
  }

  function ReadWord(t: string): (r: Option<(Value, string)>)
    ensures r.Some? ==> |r.value.1| < |t|
  {
    if StartsWith(t, "null") then Some((Null, t[4..]))
    else if StartsWith(t, "true") then Some((Bool(true), t[4..]))
    else if StartsWith(t, "false") then Some((Bool(false), t[5..]))
    else None
  }

  function ReadValue(t: string): (r: Option<(Value, string)>)
    ensures r.Some? ==> |r.value.1| < |t|
    decreases |t|, 1
  {
    if t == "" then None
    else if t[0] == '\"' then
      match ReadChars(t[1..]) {
        case None => None
        case Some(sr) => Some((Str(sr.0), sr.1))
      }
    else if t[0] == '[' then
      match ReadElems(t[1..], true) {
        case None => None
        case Some(er) => Some((Arr(er.0), er.1))
      }
    else if t[0] == '{' then
      match ReadFields(t[1..], true) {
        case None => None
        case Some(fr) => Some((Obj(fr.0), fr.1))
      }
    else if '0' <= t[0] <= '9' || t[0] == '-' then
      var nr := ReadNumeral(t); Some((Num(nr.0), nr.1))
    else ReadWord(t)
  }

  /** The elements from here to the closing bracket; `first` means none was read yet. */
  function ReadElems(t: string, first: bool): (r: Option<(seq<Value>, string)>)
    ensures r.Some? ==> |r.value.1| < |t|
    decreases |t|, 2
  {
    if t == "" then None
    else if t[0] == ']' then Some(([], t[1..]))
    else if !first && t[0] != ',' then None
    else match ReadValue(if first then t else t[1..]) {
      case None => None
      case Some(vr) =>
        match ReadElems(vr.1, false) {
          case None => None
          case Some(er) => Some(([vr.0] + er.0, er.1))
        }
    }
  }

  function ReadFields(t: string, first: bool): (r: Option<(seq<Field>, string)>)
    ensures r.Some? ==> |r.value.1| < |t|
    decreases |t|, 3
  {
    if t == "" then None
    else if t[0] == '}' then Some(([], t[1..]))
    else if !first && t[0] != ',' then None
    else match ReadField(if first then t else t[1..]) {
      case None => None
      case Some(vr) =>
        match ReadFields(vr.1, false) {
          case None => None
          case Some(fr) => Some(([vr.0] + fr.0, fr.1))
        }
    }
  }

  /** A quoted key, a colon and a value. */
  function ReadField(t: string): (r: Option<(Field, string)>)
    ensures r.Some? ==> |r.value.1| < |t|
    decreases |t|, 2
  {
    if t == "" || t[0] != '\"' then None
    else match ReadChars(t[1..]) {
      case None => None
      case Some(kr) =>
        if kr.1 == "" || kr.1[0] != ':' then None
        else match ReadValue(kr.1[1..]) {
          case None => None
          case Some(vr) => Some((Field(kr.0, vr.0), vr.1))
        }
    }
  }

  /** Reads a whole text. */
  function Read(t: string): Option<Value> {
    match ReadValue(t) {
      case Some(vr) => if vr.1 == "" then Some(vr.0) else None
      case None => None
    }
  }

  // ---------------------------------------------------------------- reading back what was printed

  /** Values that contain nothing the printer has to drop or replace. */
  predicate Printable(v: Value)
    decreases v, 1
  {
    match v
    case Undefined => false
    case NonFinite => false
    case Num(lit) => Numeral(lit)
    case Arr(es) => PrintableElems(es)
    case Obj(fs) => PrintableFields(fs)
    case _ => true
  }

  predicate PrintableElems(es: seq<Value>)
    decreases es, 0
  {
    es != [] ==> Printable(es[0]) && PrintableElems(es[1..])
  }

  predicate PrintableFields(fs: seq<Field>)
    decreases fs, 0
  {
    fs != [] ==> Printable(fs[0].val) && PrintableFields(fs[1..])
  }

  lemma ReadEscaped(c: char, rest: string)
    ensures ReadChar(EscapeChar(c) + rest) == Some((c, rest))
    ensures EscapeChar(c) != "" && EscapeChar(c)[0] != '\"'
  {
    var e := EscapeChar(c);
    var t := e + rest;
    assert t[|e|..] == rest;
    var u := c as int;
    if |e| == 6 {
      assert HexValue(e[4]) == Some(u / 16) && HexValue(e[5]) == Some(u % 16);
      assert ReadHex(t[2..]) == Some(c);
    }
  }

  lemma ReadOneMore(e: string, c: char, u: string, s: string, rest: string)
    requires e != "" && e[0] != '\"'
    requires ReadChar(e + u) == Some((c, u)) && ReadChars(u) == Some((s, rest))
    ensures ReadChars(e + u) == Some(([c] + s, rest))
  {
    assert (e + u)[0] == e[0];
  }

  lemma {:induction false} ReadQuoted(s: string, rest: string)
    ensures ReadChars(Escape(s) + ("\"" + rest)) == Some((s, rest))
  {
    var t := "\"" + rest;
    if s == "" {
      assert Escape(s) + t == t && t[1..] == rest;
    } else {
      var e, u := EscapeChar(s[0]), Escape(s[1..]) + t;
      ReadEscaped(s[0], u);
      ReadQuoted(s[1..], rest);
      ReadOneMore(e, s[0], u, s[1..], rest);
      EscapeUnfold(s, t);
      assert [s[0]] + s[1..] == s;
    }
  }

  lemma EscapeUnfold(s: string, t: string)
    requires s != ""
    ensures Escape(s) + t == EscapeChar(s[0]) + (Escape(s[1..]) + t)
  {
  }

  lemma {:induction false} ReadNumeralBack(lit: string, rest: string)
    requires forall i :: 0 <= i < |lit| ==> NumeralChar(lit[i])
    requires rest == "" || !NumeralChar(rest[0])
    ensures ReadNumeral(lit + rest) == (lit, rest)
  {
    if lit == "" {
      assert lit + rest == rest;
    } else {
      assert (lit + rest)[1..] == lit[1..] + rest;
      ReadNumeralBack(lit[1..], rest);
      assert [lit[0]] + lit[1..] == lit;
    }
  }

  lemma ReadWordBack(v: Value, rest: string)
    requires v.Null? || v.Bool?
    ensures ReadValue(Render(v) + rest) == Some((v, rest))
  {
    var w := Render(v);
    var t := w + rest;
    assert t[..|w|] == w && t[|w|..] == rest;
    assert t[0] == w[0];
    if v == Bool(true) { assert t[..4][0] == 't'; }
    if v == Bool(false) { assert t[..4][0] == 'f'; }
  }

  lemma ReadNumBack(lit: string, rest: string)
    requires Numeral(lit) && (rest == "" || !NumeralChar(rest[0]))
    ensures ReadValue(Render(Num(lit)) + rest) == Some((Num(lit), rest))
  {
    ReadNumeralBack(lit, rest);
    assert (lit + rest)[0] == lit[0];
  }

  lemma ReadQuote(s: string, rest: string)
    ensures var t := Quote(s) + rest; t != "" && t[0] == '\"' && ReadChars(t[1..]) == Some((s, rest))
  {
    var e := Escape(s);
    var u := e + ("\"" + rest);
    assert (Quote(s) + rest)[1..] == u;
    ReadQuoted(s, rest);
  }

  lemma ReadStrBack(s: string, rest: string)
    ensures ReadValue(Render(Str(s)) + rest) == Some((Str(s), rest))
  {
    ReadQuote(s, rest);
  }

  lemma Regroup(a: string, b: string, c: string, d: string)
    ensures (a + b + c) + d == a + (b + (c + d))
    ensures (a + (b + (c + d)))[|a|..] == b + (c + d)
  {
  }

  lemma ReadArrBack(es: seq<Value>, rest: string)
    requires ReadElems(RenderElems(es, "") + ("]" + rest), true) == Some((es, rest))
    ensures ReadValue(Render(Arr(es)) + rest) == Some((Arr(es), rest))
  {
    Regroup("[", RenderElems(es, ""), "]", rest);
  }

  lemma ReadObjBack(fs: seq<Field>, rest: string)
    requires ReadFields(RenderFields(fs, "") + ("}" + rest), true) == Some((fs, rest))
    ensures ReadValue(Render(Obj(fs)) + rest) == Some((Obj(fs), rest))
  {
    Regroup("{", RenderFields(fs, ""), "}", rest);
  }

  /** No text of a value starts like the end of a list or a comma. */
  lemma RenderStart(v: Value)
    requires Printable(v)
    ensures Render(v) != "" && Render(v)[0] !in "],}"
  {
  }

  /** A value's text is read back exactly, up to any text a numeral cannot run into. */
  lemma {:induction false} ReadBack(v: Value, rest: string)
    requires Printable(v)
    requires rest == "" || !NumeralChar(rest[0])
    ensures ReadValue(Render(v) + rest) == Some((v, rest))
    decreases v, 1
  {
    match v
    case Null => ReadWordBack(v, rest);
    case Bool(b) => ReadWordBack(v, rest);
    case Num(lit) => ReadNumBack(lit, rest);
    case Str(s) => ReadStrBack(s, rest);
    case Arr(es) =>
      ReadElemsBack(es, true, rest);
      ReadArrBack(es, rest);
    case Obj(fs) =>
      ReadFieldsBack(fs, true, rest);
      ReadObjBack(fs, rest);
  }

  lemma ReadElemStep(r: string, sep: string, tail: string, e: Value, es: seq<Value>, rest: string)
    requires sep == "" || sep == ","
    requires r != "" && r[0] !in "],}"
    requires ReadValue(r + tail) == Some((e, tail))
    requires ReadElems(tail, false) == Some((es, rest))
    ensures ReadElems(sep + (r + tail), sep == "") == Some(([e] + es, rest))
  {
    var t := sep + (r + tail);
    if sep == "" {
      assert t == r + tail && t[0] == r[0];
    } else {
      assert t[1..] == r + tail;
    }
  }

  lemma {:induction false} ReadElemsBack(es: seq<Value>, first: bool, rest: string)
    requires PrintableElems(es)
    ensures ReadElems(RenderElems(es, if first then "" else ",") + ("]" + rest), first) == Some((es, rest))
    decreases es, 0
  {
    var sep := if first then "" else ",";
    var end := "]" + rest;
    if es == [] {
      assert RenderElems(es, sep) + end == end && end[1..] == rest;
    } else {
      var tail := RenderElems(es[1..], ",") + end;
      ElemsTail(es[1..], end);
      RenderStart(es[0]);
      ReadBack(es[0], tail);
      ReadElemsBack(es[1..], false, rest);
      ReadElemStep(Render(es[0]), sep, tail, es[0], es[1..], rest);
      ElemsUnfold(es, sep, end);
      assert [es[0]] + es[1..] == es;
    }
  }

  lemma ElemsUnfold(es: seq<Value>, sep: string, end: string)
    requires es != []
    ensures RenderElems(es, sep) + end == sep + (Render(es[0]) + (RenderElems(es[1..], ",") + end))
  {
    var r, more := Render(es[0]), RenderElems(es[1..], ",");
    assert RenderElems(es, sep) == sep + (r + more);
    assert (sep + (r + more)) + end == sep + (r + (more + end));
  }

  lemma ElemsTail(es: seq<Value>, end: string)
    requires end != "" && end[0] == ']'
    ensures var tail := RenderElems(es, ",") + end; tail != "" && !NumeralChar(tail[0])
  {
    if es == [] {
      assert RenderElems(es, ",") + end == end;
    } else {
      assert RenderElems(es, ",")[0] == ',';
    }
  }

  lemma ReadFieldBack(k: string, text: string, v: Value, tail: string)
    requires ReadValue(text) == Some((v, tail))
    ensures ReadField(Quote(k) + (":" + text)) == Some((Field(k, v), tail))
  {
    var colon := ":" + text;
    ReadQuote(k, colon);
    assert colon[1..] == text;
  }

  lemma ReadFieldStep(u: string, sep: string, f: Field, tail: string, fs: seq<Field>, rest: string)
    requires sep == "" || sep == ","
    requires u != "" && u[0] == '\"' && ReadField(u) == Some((f, tail))
    requires ReadFields(tail, false) == Some((fs, rest))
    ensures ReadFields(sep + u, sep == "") == Some(([f] + fs, rest))
  {
    if sep == "" {
      assert sep + u == u;
    } else {
      assert (sep + u)[1..] == u;
    }
  }

  lemma {:induction false} ReadFieldsBack(fs: seq<Field>, first: bool, rest: string)
    requires PrintableFields(fs)
    ensures ReadFields(RenderFields(fs, if first then "" else ",") + ("}" + rest), first) == Some((fs, rest))
    decreases fs, 0
  {
    var sep := if first then "" else ",";
    var end := "}" + rest;
    if fs == [] {
      assert RenderFields(fs, sep) + end == end && end[1..] == rest;
    } else {
      var k, r := fs[0].key, Render(fs[0].val);
      var tail := RenderFields(fs[1..], ",") + end;
      FieldsTail(fs[1..], end);
      ReadBack(fs[0].val, tail);
      ReadFieldsBack(fs[1..], false, rest);
      ReadFieldBack(k, r + tail, fs[0].val, tail);
      ReadFieldStep(Quote(k) + (":" + (r + tail)), sep, fs[0], tail, fs[1..], rest);
      FieldsUnfold(fs, sep, end);
      assert [fs[0]] + fs[1..] == fs;
    }
  }

  lemma FieldsUnfold(fs: seq<Field>, sep: string, end: string)
    requires fs != [] && !fs[0].val.Undefined?
    ensures RenderFields(fs, sep) + end
         == sep + (Quote(fs[0].key) + (":" + (Render(fs[0].val) + (RenderFields(fs[1..], ",") + end))))
  {
    var q, r, more := Quote(fs[0].key), Render(fs[0].val), RenderFields(fs[1..], ",");
    assert RenderFields(fs, sep) == sep + (q + (":" + (r + more)));
    assert (sep + (q + (":" + (r + more)))) + end == sep + (q + (":" + (r + (more + end))));
  }

  lemma FieldsTail(fs: seq<Field>, end: string)
    requires PrintableFields(fs)
    requires end != "" && end[0] == '}'
    ensures var tail := RenderFields(fs, ",") + end; tail != "" && !NumeralChar(tail[0])
  {
    if fs == [] {
      assert RenderFields(fs, ",") + end == end;
    } else {
      assert RenderFields(fs, ",")[0] == ',';
    }
  }

  /** The printer loses nothing of a printable value: the reader undoes it. */
  lemma PrintedTextReadsBack(v: Value)
    requires Printable(v)
    ensures Read(Render(v)) == Some(v)
  {
    ReadBack(v, "");
    assert Render(v) + "" == Render(v);
  }
}
