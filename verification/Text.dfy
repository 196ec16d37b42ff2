/** Strings as the source compares them: by UTF-16 code units. */
module Text {
  /**
   * A rank that orders single characters as UTF-16 orders them: characters
   * beyond the basic plane are surrogate pairs and come before U+E000.
   */
  function Rank(c: char): int {
    var u := c as int;
    if u < 0xE000 then u
    else if u < 0x10000 then u + 0x100000
    else u - 0x10000 + 0xD800
  }

  lemma RankInjective(c: char, d: char)
    requires Rank(c) == Rank(d)
    ensures c == d
  {
    assert c as int == d as int;
  }

  /** The `<` of the source on strings. */
  predicate Less(a: string, b: string) {
    if b == "" then false
    else if a == "" then true
    else if a[0] == b[0] then Less(a[1..], b[1..])
    else Rank(a[0]) < Rank(b[0])
  }

  lemma {:induction false} LessIrreflexive(a: string)
    ensures !Less(a, a)
  {
    if a != "" {
      LessIrreflexive(a[1..]);
    }
  }

  lemma {:induction false} LessTransitive(a: string, b: string, c: string)
    requires Less(a, b) && Less(b, c)
    ensures Less(a, c)
  {
    if a != "" && a[0] == b[0] && b[0] == c[0] {
      LessTransitive(a[1..], b[1..], c[1..]);
    }
  }

  lemma {:induction false} LessTotal(a: string, b: string)
    ensures Less(a, b) || a == b || Less(b, a)
  {
    if a != "" && b != "" {
      if a[0] == b[0] {
        LessTotal(a[1..], b[1..]);
        assert a == [a[0]] + a[1..] && b == [b[0]] + b[1..];
      } else if Rank(a[0]) == Rank(b[0]) {
        RankInjective(a[0], b[0]);
      }
    }
  }

  /** `s.length`: characters beyond the basic plane count twice. */
  function Utf16Length(s: string): (n: nat)
    ensures |s| <= n <= 2 * |s|
  {
    if s == "" then 0 else (if s[0] as int < 0x10000 then 1 else 2) + Utf16Length(s[1..])
  }

  /** The white space of regular expressions (`\s`). */
  predicate IsSpace(c: char) {
    var u := c as int;
    || 9 <= u <= 13 || u == 32 || u == 0xA0 || u == 0x1680 || 0x2000 <= u <= 0x200A
    || u == 0x2028 || u == 0x2029 || u == 0x202F || u == 0x205F || u == 0x3000 || u == 0xFEFF
  }

  /** The pattern `^(?!\s)(?:[^\r\n]*\S)$`: a non-empty single line without outer white space. */
  predicate TrimmedLine(s: string) {
    && s != "" && !IsSpace(s[0]) && !IsSpace(s[|s| - 1])
    && forall i :: 0 <= i < |s| ==> s[i] != '\r' && s[i] != '\n'
  }

  // ---------------------------------------------------------------- lines made of pieces

  predicate Unbroken(s: string) {
    forall i :: 0 <= i < |s| ==> s[i] != '\r' && s[i] != '\n'
  }

  /** What a line may end in. */
  predicate LineEnd(s: string) {
    Unbroken(s) && s != "" && !IsSpace(s[|s| - 1])
  }

  lemma UnbrokenJoined(a: string, b: string)
    ensures Unbroken(a + b) <==> Unbroken(a) && Unbroken(b)
  {
    if Unbroken(a + b) {
      assert forall i :: 0 <= i < |a| ==> a[i] == (a + b)[i];
      forall i | 0 <= i < |b| ensures b[i] != '\r' && b[i] != '\n' { assert b[i] == (a + b)[|a| + i]; }
    }
  }

  /** Behind a space, only the end decides. */
  lemma LineEndJoined(head: string, end: string)
    requires Unbroken(head) && head != "" && IsSpace(head[|head| - 1])
    ensures LineEnd(head + end) <==> LineEnd(end)
  {
    UnbrokenJoined(head, end);
    if end == "" { assert head + end == head; }
  }

  /** Behind the start of a line, only the end decides. */
  lemma TrimmedIff(head: string, end: string)
    requires head != "" && !IsSpace(head[0]) && Unbroken(head) && end != ""
    ensures TrimmedLine(head + end) <==> LineEnd(end)
  {
    UnbrokenJoined(head, end);
  }
}
