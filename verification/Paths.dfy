/**
 * Repository paths in scope contracts and requests (`normalizeRepoPattern` and
 * `normalizeRequestPath` in src/policy/scope-engine.mjs). The latter rests on
 * `path.posix.normalize`, which is a stack of names.
 */
module Paths {
  import opened Wrappers
  import opened Globs
  import Text

  // ---------------------------------------------------------------- patterns

  predicate DriveLetter(s: string) {
    |s| >= 2 && ('A' <= s[0] <= 'Z' || 'a' <= s[0] <= 'z') && s[1] == ':'
  }

  predicate HasDoubleStar(s: string) {
    exists i :: 0 <= i < |s| - 1 && s[i] == '*' && s[i + 1] == '*'
  }

  predicate PatternPart(p: string) {
    p == "**" || (p != "" && '\\' !in p && '\0' !in p && !HasDoubleStar(p))
  }

  predicate DotPart(p: string) {
    p == "." || p == ".."
  }

  /** The dot of a regular expression does not match these. */
  predicate LineTerminator(c: char) {
    c == '\n' || c == '\r' || c == '\U{2028}' || c == '\U{2029}'
  }

  /** What `.*` can match. */
  predicate OnOneLine(s: string) {
    forall k :: 0 <= k < |s| ==> !LineTerminator(s[k])
  }

  /** `(?:.*\/)?`: what can be skipped before position `i`, nothing or a stretch of one line up to a slash. */
  predicate Reached(s: string, i: nat) {
    i == 0 || (i <= |s| && s[i - 1] == '/' && OnOneLine(s[..i - 1]))
  }

  predicate EndsPart(s: string, i: nat) {
    i == |s| || (i < |s| && s[i] == '/')
  }

  /** `\.{1,2}(?:\/|$)` at position `i`. */
  predicate DotsAt(s: string, i: nat) {
    i < |s| && s[i] == '.' && (EndsPart(s, i + 1) || (i + 1 < |s| && s[i + 1] == '.' && EndsPart(s, i + 2)))
  }

  /** The second look-ahead of `SCOPE_PATH_PATTERN`. */
  predicate SeesDotPart(s: string) {
    exists i: nat :: i < |s| && Reached(s, i) && DotsAt(s, i)
  }

  predicate AllPatternParts(s: string) {
    forall k {:trigger Split(s)[k]} :: 0 <= k < |Split(s)| ==> PatternPart(Split(s)[k])
  }

  /** `SCOPE_PATH_PATTERN`, after the check for a trimmed single line. */
  predicate RepoPattern(s: string) {
    Text.TrimmedLine(s) && !DriveLetter(s) && !SeesDotPart(s) && AllPatternParts(s)
  }

  // ---------------------------------------------------------------- path.posix.normalize

  /** One segment: empty ones and `.` vanish, `..` takes the last name back if there is one. */
  function Enter(stack: seq<string>, part: string): seq<string> {
    if part == "" || part == "." then stack
    else if part == ".." && stack != [] && stack[|stack| - 1] != ".." then stack[..|stack| - 1]
    else stack + [part]
  }

  function Resolve(stack: seq<string>, parts: seq<string>): seq<string>
    decreases |parts|
  {
    if parts == [] then stack else Resolve(Enter(stack, parts[0]), parts[1..])
  }

  function Join(parts: seq<string>): string {
    if parts == [] then "" else if |parts| == 1 then parts[0] else parts[0] + "/" + Join(parts[1..])
  }

  /** The names that a relative path leads to. */
  function Target(path: string): seq<string> {
    Resolve([], Split(path))
  }

  predicate Trailing(path: string) {
    path != "" && path[|path| - 1] == '/'
  }

  function Normalize(path: string): string {
    var joined := Join(Target(path));
    if joined == "" then (if Trailing(path) then "./" else ".") else joined + (if Trailing(path) then "/" else "")
  }

  datatype PathError = NotAString | NotRelative | Escapes

  function NormalizeRequestPath(value: string): Result<string, PathError> {
    if !Text.TrimmedLine(value) then Err(NotAString)
    else if '\\' in value || value[0] == '/' || DriveLetter(value) || '\0' in value then Err(NotRelative)
    else
      var normalized := Normalize(value);
      if normalized == ".." || "../" <= normalized || normalized == "." then Err(Escapes) else Ok(normalized)
  }

  // ---------------------------------------------------------------- what normalisation means

  lemma {:induction false} ResolveInTurn(stack: seq<string>, a: seq<string>, b: seq<string>)
    ensures Resolve(stack, a + b) == Resolve(Resolve(stack, a), b)
    decreases |a|
  {
    if a == [] {
      assert a + b == b;
    } else {
      assert (a + b)[1..] == a[1..] + b;
      ResolveInTurn(Enter(stack, a[0]), a[1..], b);
    }
  }

  predicate Name(p: string) {
    p != "" && !DotPart(p) && '/' !in p
  }

  /** What a stack can be: some steps up, then names. */
  ghost predicate Proper(stack: seq<string>) {
    && (forall k {:trigger stack[k]} :: 0 <= k < |stack| ==> Name(stack[k]) || stack[k] == "..")
    && forall j, k {:trigger stack[j], stack[k]} :: 0 <= j < k < |stack| && stack[k] == ".." ==> stack[j] == ".."
  }

  lemma {:induction false} ResolvedIsProper(stack: seq<string>, parts: seq<string>)
    requires Proper(stack) && forall p :: p in parts ==> '/' !in p
    ensures Proper(Resolve(stack, parts))
    decreases |parts|
  {
    if parts != [] {
      assert parts[0] in parts;
      assert forall p :: p in parts[1..] ==> p in parts;
      ResolvedIsProper(Enter(stack, parts[0]), parts[1..]);
    }
  }

  lemma {:induction false} SplitHasNoSlash(s: string)
    ensures forall p :: p in Split(s) ==> '/' !in p
  {
    if s != "" {
      SplitHasNoSlash(s[1..]);
      var rest := Split(s[1..]);
      assert rest[0] in rest;
    }
  }

  lemma TargetIsProper(path: string)
    ensures Proper(Target(path))
  {
    SplitHasNoSlash(path);
    ResolvedIsProper([], Split(path));
  }

  /** Dot segments, empty segments and steps into a directory and out again leave no trace. */
  lemma SpellingDoesNotMatter(a: seq<string>, b: seq<string>, x: string)
    requires Name(x)
    ensures Resolve([], a + ["."] + b) == Resolve([], a + b)
    ensures Resolve([], a + [""] + b) == Resolve([], a + b)
    ensures Resolve([], a + [x, ".."] + b) == Resolve([], a + b)
  {
    var s := Resolve([], a);
    ResolveInTurn([], a, b);
    ResolveInTurn([], a + ["."], b);
    ResolveInTurn([], a, ["."]);
    ResolveInTurn([], a + [""], b);
    ResolveInTurn([], a, [""]);
    ResolveInTurn([], a + [x, ".."], b);
    ResolveInTurn([], a, [x, ".."]);
    assert [x, ".."][1..] == [".."];
    assert Enter(s, x) == s + [x];
    assert Enter(s + [x], "..") == s;
    assert Resolve(s, [x, ".."]) == Resolve(s + [x], [".."]) == s;
  }

  lemma {:induction false} ProperStays(stack: seq<string>, parts: seq<string>)
    requires Proper(stack + parts)
    ensures Resolve(stack, parts) == stack + parts
    decreases |parts|
  {
    if parts == [] {
      assert stack + parts == stack;
    } else {
      var all := stack + parts;
      assert all[|stack|] == parts[0];
      assert stack != [] ==> all[|stack| - 1] == stack[|stack| - 1];
      assert Enter(stack, parts[0]) == stack + [parts[0]];
      assert stack + [parts[0]] + parts[1..] == all;
      ProperStays(stack + [parts[0]], parts[1..]);
    }
  }

  lemma {:induction false} SplitOfJoin(parts: seq<string>)
    requires parts != [] && forall p :: p in parts ==> '/' !in p
    ensures Split(Join(parts)) == parts
    decreases |parts|
  {
    assert parts[0] in parts;
    SplitSingle(parts[0]);
    if |parts| == 1 {
      assert parts == [parts[0]];
    } else {
      assert forall p :: p in parts[1..] ==> p in parts;
      SplitOfJoin(parts[1..]);
      SplitJoined(parts[0], Join(parts[1..]));
    }
  }

  lemma ProperSplits(stack: seq<string>)
    requires Proper(stack) && stack != []
    ensures Split(Join(stack)) == stack && Join(stack) != ""
  {
    forall p | p in stack ensures '/' !in p {
      var k :| 0 <= k < |stack| && stack[k] == p;
    }
    SplitOfJoin(stack);
    assert Split("") == [""];
    assert stack[0] != "";
  }

  /** The parts of a normalised path: the names it leads to, and an empty part for a trailing slash. */
  lemma NormalParts(path: string)
    ensures Target(path) != [] ==> Split(Normalize(path)) == Target(path) + (if Trailing(path) then [""] else [])
    ensures Target(path) == [] ==> Normalize(path) == if Trailing(path) then "./" else "."
  {
    TargetIsProper(path);
    var t := Target(path);
    if t != [] {
      ProperSplits(t);
      if Trailing(path) {
        assert Join(t) + "/" == Join(t) + "/" + "";
        SplitJoined(Join(t), "");
      } else {
        assert Join(t) + "" == Join(t);
      }
    }
  }

  /** Normalising again changes nothing. */
  lemma NormalizeIsIdempotent(path: string)
    ensures Normalize(Normalize(path)) == Normalize(path)
  {
    TargetIsProper(path);
    NormalParts(path);
    var t, n := Target(path), Normalize(path);
    if t != [] {
      assert [] + t == t;
      ProperStays([], t);
      ResolveInTurn([], t, [""]);
      assert t + [] == t;
      assert Target(n) == t;
      ProperSplits(t);
      assert Trailing(n) <==> Trailing(path) by {
        if !Trailing(path) { LastOfJoin(t); }
      }
    } else {
      assert Split("") == [""];
      SplitSingle(".");
      assert "./" == "." + "/" + "";
      SplitJoined(".", "");
      assert Target(".") == [] && Target("./") == [];
    }
  }

  lemma {:induction false} LastOfJoin(parts: seq<string>)
    requires Proper(parts) && parts != []
    ensures !Trailing(Join(parts)) && Join(parts) != ""
    decreases |parts|
  {
    if |parts| == 1 {
      assert parts[0] in parts;
    } else {
      assert Proper(parts[1..]);
      LastOfJoin(parts[1..]);
    }
  }

  predicate RelativeText(value: string) {
    Text.TrimmedLine(value) && '\\' !in value && value[0] != '/' && !DriveLetter(value) && '\0' !in value
  }

  /** A text begins with a step up exactly when its first part is one. */
  lemma FirstPartIsUp(s: string)
    ensures Split(s)[0] == ".." <==> s == ".." || "../" <= s
  {
    if |s| >= 1 {
      var t := s[1..];
      if |t| >= 1 {
        var u := t[1..];
        assert |u| >= 1 ==> u[0] == s[2] && t[0] == s[1];
        assert u == "" ==> s == [s[0], s[1]];
        assert Split(t)[0] == if t[0] == '/' then "" else [t[0]] + Split(u)[0];
        assert Split(u)[0] == "" <==> u == "" || u[0] == '/';
        assert Split(s)[0] == if s[0] == '/' then "" else [s[0]] + Split(t)[0];
      }
    }
  }

  lemma NormalGoesUpIff(path: string)
    requires Target(path) != []
    ensures Target(path)[0] == ".." <==> Normalize(path) == ".." || "../" <= Normalize(path)
    ensures Normalize(path) != "."
  {
    NormalParts(path);
    TargetIsProper(path);
    FirstPartIsUp(Normalize(path));
    SplitSingle(".");
    assert Split(Normalize(path))[0] == Target(path)[0];
  }

  /**
   * A request path is accepted exactly when it is relative text that does not
   * lead above the repository, and does not come down to the bare root.
   */
  lemma RequestPathIff(value: string, n: string)
    ensures NormalizeRequestPath(value) == Ok(n) <==>
            && RelativeText(value) && n == Normalize(value)
            && (if Target(value) == [] then Trailing(value) else Target(value)[0] != "..")
  {
    NormalParts(value);
    if Target(value) != [] { NormalGoesUpIff(value); }
  }

  lemma FirstPartShows(p: string)
    requires RepoPattern(p)
    ensures Split(p)[0] != "."
  {
    if Split(p)[0] == "." {
      FirstSlash(p);
      assert Reached(p, 0) && DotsAt(p, 0);
      assert false;
    }
  }

  /**
   * An exclude of everything under a literal `p` rejects exactly the request
   * paths that lead to `p` or below it, however they are spelled.
   */
  lemma ExcludedIff(p: string, value: string, n: string)
    requires RepoPattern(p) && Literal(p) && NormalizeRequestPath(value) == Ok(n)
    ensures GlobMatches(p + "/**", n) <==> Split(p) <= Target(value)
  {
    SubtreeIff(p, n);
    RequestPathIff(value, n);
    NormalParts(value);
    FirstPartShows(p);
    var parts, t := Split(p), Target(value);
    if t == [] {
      assert "./" == "." + "/" + "";
      SplitJoined(".", "");
      SplitSingle(".");
      assert Split("") == [""];
    } else {
      assert forall k :: 0 <= k < |parts| ==> PatternPart(parts[k]);
      assert |parts| == |t| + 1 ==> parts[|t|] != "";
    }
  }

  // ---------------------------------------------------------------- dot parts that are not seen

  /** Where the first part of a text ends. */
  lemma {:induction false} FirstSlash(s: string)
    ensures '/' in s ==> exists rest :: s == Split(s)[0] + "/" + rest
    ensures '/' !in s ==> Split(s) == [s]
    ensures '/' !in Split(s)[0]
  {
    SplitHasNoSlash(s);
    assert Split(s)[0] in Split(s);
    if '/' !in s {
      SplitSingle(s);
    } else if s[0] == '/' {
      assert s == "" + "/" + s[1..];
    } else {
      FirstSlash(s[1..]);
      var rest :| s[1..] == Split(s[1..])[0] + "/" + rest;
      assert s == [s[0]] + s[1..] == Split(s)[0] + "/" + rest;
    }
  }

  /** U+2028 or U+2029, the line terminators that a trimmed single line can have inside. */
  predicate Separated(part: string) {
    '\U{2028}' in part || '\U{2029}' in part
  }

  predicate NoneSeparated(parts: seq<string>) {
    forall k :: 0 <= k < |parts| ==> !Separated(parts[k])
  }

  /** Some dot part has no separator in the parts before it. */
  predicate ShowsDotPart(parts: seq<string>) {
    exists k :: 0 <= k < |parts| && DotPart(parts[k]) && NoneSeparated(parts[..k])
  }

  lemma DotsAtFront(p: string, after: string)
    requires '/' !in p && (after == "" || after[0] == '/')
    ensures DotsAt(p + after, 0) <==> DotPart(p)
  {
    var s := p + after;
    assert forall i :: 0 <= i < |p| ==> s[i] == p[i];
    if |p| == 1 { assert p == [p[0]]; }
    if |p| == 2 { assert p == [p[0], p[1]]; }
  }

  lemma LinesJoined(a: string, b: string)
    ensures OnOneLine(a + b) <==> OnOneLine(a) && OnOneLine(b)
  {
    if OnOneLine(a + b) {
      assert forall k :: 0 <= k < |a| ==> a[k] == (a + b)[k];
      forall k | 0 <= k < |b| ensures !LineTerminator(b[k]) { assert b[k] == (a + b)[|a| + k]; }
    }
  }

  lemma ReachedInside(p: string, rest: string, i: nat)
    requires '/' !in p && i <= |rest|
    ensures Reached(p + "/" + rest, |p| + 1 + i) <==> OnOneLine(p) && Reached(rest, i)
  {
    var s, j := p + "/" + rest, |p| + 1 + i;
    assert s[|p|] == '/' && s[..|p|] == p;
    if i > 0 {
      assert s[..j - 1] == p + ("/" + rest[..i - 1]);
      assert s[j - 1] == rest[i - 1];
      LinesJoined(p, "/" + rest[..i - 1]);
      LinesJoined("/", rest[..i - 1]);
    }
  }

  lemma DotsInside(p: string, rest: string, i: nat)
    requires i <= |rest|
    ensures DotsAt(p + "/" + rest, |p| + 1 + i) <==> DotsAt(rest, i)
  {
    var s := p + "/" + rest;
    assert forall k :: 0 <= k < |rest| ==> s[|p| + 1 + k] == rest[k];
  }

  /** The look-ahead sees a dot part in front, or one behind a first part of one line. */
  lemma SeesBehind(p: string, rest: string)
    requires '/' !in p
    ensures SeesDotPart(p + "/" + rest) <==> DotPart(p) || (OnOneLine(p) && SeesDotPart(rest))
  {
    var s := p + "/" + rest;
    assert s == p + ("/" + rest);
    DotsAtFront(p, "/" + rest);
    assert Reached(s, 0);
    if SeesDotPart(s) && !DotPart(p) {
      var i: nat :| i < |s| && Reached(s, i) && DotsAt(s, i);
      assert forall k :: 0 <= k < |p| ==> s[k] == p[k] && p[k] in p;
      assert i > |p|;
      ReachedInside(p, rest, i - |p| - 1);
      DotsInside(p, rest, i - |p| - 1);
    }
    if SeesDotPart(rest) {
      var i: nat :| i < |rest| && Reached(rest, i) && DotsAt(rest, i);
      ReachedInside(p, rest, i);
      DotsInside(p, rest, i);
    }
  }

  predicate OneLine(s: string) {
    forall k :: 0 <= k < |s| ==> s[k] != '\n' && s[k] != '\r'
  }

  lemma SeparatedIff(p: string)
    requires OneLine(p)
    ensures Separated(p) <==> !OnOneLine(p)
  {
  }

  lemma ShowsBehind(p: string, parts: seq<string>)
    ensures ShowsDotPart([p] + parts) <==> DotPart(p) || (!Separated(p) && ShowsDotPart(parts))
  {
    var all := [p] + parts;
    if ShowsDotPart(all) && !DotPart(p) {
      var k :| 0 <= k < |all| && DotPart(all[k]) && NoneSeparated(all[..k]);
      assert all[..k][0] == p;
      assert all[..k] == [p] + parts[..k - 1];
      forall j {:trigger parts[..k - 1][j]} | 0 <= j < k - 1 ensures !Separated(parts[..k - 1][j]) { assert all[..k][j + 1] == parts[..k - 1][j]; }
      assert DotPart(parts[k - 1]) && NoneSeparated(parts[..k - 1]);
    }
    if DotPart(p) { assert DotPart(all[0]) && NoneSeparated(all[..0]); }
    if !Separated(p) && ShowsDotPart(parts) {
      var k :| 0 <= k < |parts| && DotPart(parts[k]) && NoneSeparated(parts[..k]);
      assert all[..k + 1] == [p] + parts[..k];
      assert DotPart(all[k + 1]) && NoneSeparated(all[..k + 1]);
    }
  }

  /** The look-ahead of the regular expression, over characters, against what it sees of the parts. */
  lemma {:induction false} SeesIff(s: string)
    requires OneLine(s)
    ensures SeesDotPart(s) <==> ShowsDotPart(Split(s))
    decreases |s|
  {
    FirstSlash(s);
    var p := Split(s)[0];
    if '/' in s {
      var rest :| s == p + "/" + rest;
      assert forall k :: 0 <= k < |rest| ==> rest[k] == s[|p| + 1 + k];
      assert forall k :: 0 <= k < |p| ==> p[k] == s[k];
      SeesIff(rest);
      SeesBehind(p, rest);
      SeparatedIff(p);
      SplitJoined(p, rest);
      SplitSingle(p);
      ShowsBehind(p, Split(rest));
    } else {
      assert s + "" == s;
      DotsAtFront(s, "");
      assert s != "" ==> Reached(s, 0);
      ShowsBehind(s, []);
      assert [s] + [] == [s];
      if SeesDotPart(s) {
        var i: nat :| i < |s| && Reached(s, i) && DotsAt(s, i);
        assert i == 0;
      }
    }
  }

  predicate HasDotPart(s: string) {
    exists k :: 0 <= k < |Split(s)| && DotPart(Split(s)[k])
  }

  predicate SeparatedBefore(s: string, k: nat)
    requires k <= |Split(s)|
  {
    exists j :: 0 <= j < k && Separated(Split(s)[j])
  }

  /** Every dot part comes after a part with a separator. */
  predicate DotPartsHidden(s: string) {
    forall k :: 0 <= k < |Split(s)| && DotPart(Split(s)[k]) ==> SeparatedBefore(s, k)
  }

  lemma ShowsIff(s: string)
    ensures ShowsDotPart(Split(s)) <==> !DotPartsHidden(s)
  {
    var parts := Split(s);
    if ShowsDotPart(parts) {
      var k :| 0 <= k < |parts| && DotPart(parts[k]) && NoneSeparated(parts[..k]);
      assert forall j :: 0 <= j < k ==> !Separated(parts[..k][j]) && parts[..k][j] == parts[j];
      assert !SeparatedBefore(s, k);
    }
    if !DotPartsHidden(s) {
      var k :| 0 <= k < |parts| && DotPart(parts[k]) && !SeparatedBefore(s, k);
      assert NoneSeparated(parts[..k]);
    }
  }

  /** What a pattern must be for its other checks. */
  predicate OtherwiseFine(s: string) {
    Text.TrimmedLine(s) && !DriveLetter(s) && AllPatternParts(s)
  }

  /**
   * A pattern is accepted although it has a dot part exactly when it passes the
   * other checks and every dot part comes after a part with U+2028 or U+2029.
   */
  lemma DotPartAcceptedIff(s: string)
    ensures RepoPattern(s) && HasDotPart(s) <==> OtherwiseFine(s) && HasDotPart(s) && DotPartsHidden(s)
    ensures RepoPattern(s) && !HasDotPart(s) <==> OtherwiseFine(s) && !HasDotPart(s)
  {
    if OtherwiseFine(s) {
      SeesIff(s);
      ShowsIff(s);
    }
  }

  lemma {:induction false} SeparatedPartInside(s: string, k: nat)
    requires k < |Split(s)| && Separated(Split(s)[k])
    ensures Separated(s)
  {
    if s != "" {
      assert forall c :: c in s[1..] ==> c in s;
      var rest := Split(s[1..]);
      if s[0] == '/' {
        if k > 0 { SeparatedPartInside(s[1..], k - 1); }
      } else if k > 0 {
        SeparatedPartInside(s[1..], k);
      } else if Separated(rest[0]) {
        SeparatedPartInside(s[1..], 0);
      } else {
        assert s[0] in s;
      }
    }
  }

  /** An accepted pattern without these two characters has no dot part. */
  lemma NoSeparatorNoDotPart(s: string)
    requires RepoPattern(s) && !Separated(s)
    ensures !HasDotPart(s)
  {
    DotPartAcceptedIff(s);
    if HasDotPart(s) {
      var k :| 0 <= k < |Split(s)| && DotPart(Split(s)[k]);
      assert SeparatedBefore(s, k);
      var j :| 0 <= j < k && Separated(Split(s)[j]);
      SeparatedPartInside(s, j);
      assert false;
    }
  }

  lemma SeparatorHidesStepUp(a: string, c: string, s: string)
    requires s == a + "/" + (".." + "/" + c) && OtherwiseFine(s)
    requires '/' !in a && Separated(a) && '/' !in c && !DotPart(c)
    ensures RepoPattern(s) && HasDotPart(s)
  {
    SplitJoined(a, ".." + "/" + c);
    SplitJoined("..", c);
    SplitSingle(a);
    SplitSingle("..");
    SplitSingle(c);
    var parts := Split(s);
    assert parts == [a, "..", c];
    assert DotPart(parts[1]) && Separated(parts[0]) && SeparatedBefore(s, 1);
    DotPartAcceptedIff(s);
  }

  /** There are such patterns. */
  lemma HiddenStepUp() returns (s: string)
    ensures RepoPattern(s) && ".." in Split(s)
  {
    var a, c := "a\U{2028}", "c";
    s := a + "/" + (".." + "/" + c);
    assert a[1] in a;
    assert Text.TrimmedLine(s) && !DriveLetter(s);
    SplitJoined(a, ".." + "/" + c);
    SplitJoined("..", c);
    SplitSingle(a);
    SplitSingle("..");
    SplitSingle(c);
    assert Split(s) == [a, "..", c];
    SeparatorHidesStepUp(a, c, s);
    assert Split(s)[1] == "..";
  }

  lemma {:induction false} GroupInside(groups: seq<seq<string>>, k: nat, x: string)
    requires k < |groups| && x in groups[k]
    ensures x in Flatten(groups)
  {
    if k > 0 { GroupInside(groups[1..], k - 1, x); }
  }

  lemma NoStepUpInside(value: string, n: string)
    requires NormalizeRequestPath(value) == Ok(n)
    ensures ".." !in Split(n)
  {
    RequestPathIff(value, n);
    NormalParts(value);
    TargetIsProper(value);
    if Target(value) == [] {
      assert "./" == "." + "/" + "";
      SplitJoined(".", "");
      SplitSingle(".");
      SplitSingle("");
    }
  }

  /** No accepted request path matches a pattern with a step up. */
  lemma StepUpNeverMatches(pattern: string, value: string, n: string)
    requires ".." in Split(pattern) && NormalizeRequestPath(value) == Ok(n)
    ensures !GlobMatches(pattern, n)
  {
    NoStepUpInside(value, n);
    GlobIff(pattern, n);
    if groups :| GlobAligned(pattern, n, groups) {
      var k :| 0 <= k < |Split(pattern)| && Split(pattern)[k] == "..";
      assert Covers(Split(pattern)[k], groups[k], IsGlobstar, SegmentFits);
      LiteralFitsItself("..", groups[k][0]);
      GroupInside(groups, k, "..");
      assert false;
    }
  }

  lemma DotInside(value: string, n: string)
    requires NormalizeRequestPath(value) == Ok(n) && "." in Split(n)
    ensures Split(n) == [".", ""]
  {
    RequestPathIff(value, n);
    NormalParts(value);
    TargetIsProper(value);
    if Target(value) == [] {
      assert "./" == "." + "/" + "";
      SplitJoined(".", "");
      SplitSingle(".");
      SplitSingle("");
    }
  }

  /** A separator stands for itself in a pattern. */
  lemma SeparatedFits(part: string, segment: string)
    requires Separated(part) && SegmentFits(part, segment)
    ensures Separated(segment)
  {
    var c := if '\U{2028}' in part then '\U{2028}' else '\U{2029}';
    UnitIff(part, c);
    LiteralUnitIsThere(Units(part), Units(segment), c as int);
    UnitIff(segment, c);
  }

  lemma HiddenDotNeverMatches(pattern: string, value: string, n: string, j: nat, k: nat)
    requires j < |Split(pattern)| && k < |Split(pattern)| && Separated(Split(pattern)[j]) && Split(pattern)[k] == "."
    requires NormalizeRequestPath(value) == Ok(n)
    ensures !GlobMatches(pattern, n)
  {
    GlobIff(pattern, n);
    if groups :| GlobAligned(pattern, n, groups) {
      assert Covers(Split(pattern)[k], groups[k], IsGlobstar, SegmentFits) && Covers(Split(pattern)[j], groups[j], IsGlobstar, SegmentFits);
      LiteralFitsItself(".", groups[k][0]);
      GroupInside(groups, k, ".");
      DotInside(value, n);
      SeparatedFits(Split(pattern)[j], groups[j][0]);
      GroupInside(groups, j, groups[j][0]);
      assert false;
    }
  }

  /** So a dot part that was not seen does no harm: no accepted request path matches the pattern. */
  lemma HiddenDotPartNeverMatches(pattern: string, value: string, n: string)
    requires RepoPattern(pattern) && HasDotPart(pattern) && NormalizeRequestPath(value) == Ok(n)
    ensures !GlobMatches(pattern, n)
  {
    DotPartAcceptedIff(pattern);
    var k :| 0 <= k < |Split(pattern)| && DotPart(Split(pattern)[k]);
    assert SeparatedBefore(pattern, k);
    var j :| 0 <= j < k && Separated(Split(pattern)[j]);
    if Split(pattern)[k] == ".." {
      StepUpNeverMatches(pattern, value, n);
    } else {
      HiddenDotNeverMatches(pattern, value, n, j, k);
    }
  }
}
