/**
 * Line-by-line log files that a crash may leave with a torn last line, as the
 * event store and the memory store read them back.
 */
module LogFiles {
  /** One line of a file: a whole record, or an unparseable fragment of one. */
  datatype Line<T> = Whole(record: T) | Fragment

  function Wholes<T>(records: seq<T>): seq<Line<T>> {
    seq(|records|, i requires 0 <= i < |records| => Whole(records[i]))
  }

  /** The records of a file whose only fragment, if any, is its last line. */
  function Records<T>(lines: seq<Line<T>>): seq<T> {
    if lines == [] then []
    else if lines[|lines| - 1].Whole? then Records(lines[..|lines| - 1]) + [lines[|lines| - 1].record]
    else Records(lines[..|lines| - 1])
  }

  predicate Torn<T>(lines: seq<Line<T>>) {
    lines != [] && lines[|lines| - 1].Fragment?
  }

  predicate DamagedAt<T>(lines: seq<Line<T>>, i: nat) {
    i + 1 < |lines| && lines[i].Fragment?
  }

  ghost predicate Damaged<T>(lines: seq<Line<T>>) {
    exists i: nat :: DamagedAt(lines, i)
  }

  /** No fragment so far but one at the very end, which is counted. */
  predicate WholeSoFar<T>(lines: seq<Line<T>>, i: nat, corrupt: nat) {
    && i <= |lines| && (forall j :: 0 <= j < i && j + 1 < |lines| ==> lines[j].Whole?)
    && corrupt == (if i == |lines| && Torn(lines) then 1 else 0)
  }

  lemma WholeOn<T>(lines: seq<Line<T>>, i: nat)
    requires i < |lines| && WholeSoFar(lines, i, 0)
    ensures lines[i].Whole? ==> WholeSoFar(lines, i + 1, 0)
    ensures lines[i].Fragment? ==> if i == |lines| - 1 then WholeSoFar(lines, i + 1, 1) else DamagedAt(lines, i) && Damaged(lines)
  {
    assert lines[i].Fragment? && i < |lines| - 1 ==> DamagedAt(lines, i);
  }

  lemma WholeAll<T>(lines: seq<Line<T>>, corrupt: nat)
    requires WholeSoFar(lines, |lines|, corrupt)
    ensures !Damaged(lines) && corrupt == if Torn(lines) then 1 else 0
  {
  }

  lemma RecordsOn<T>(lines: seq<Line<T>>, i: nat)
    requires i < |lines|
    ensures Records(lines[..i + 1]) == Records(lines[..i]) + (if lines[i].Whole? then [lines[i].record] else [])
  {
    assert lines[..i + 1][..i] == lines[..i];
  }

  lemma WholesIfUndamaged<T>(lines: seq<Line<T>>)
    requires !Damaged(lines) && !Torn(lines)
    ensures lines == Wholes(Records(lines))
  {
    forall i | 0 <= i < |lines|
      ensures lines[i].Whole?
    {
      assert !DamagedAt(lines, i);
    }
    RecordsOfWholes(lines);
  }

  lemma {:induction false} RecordsOfWholes<T>(lines: seq<Line<T>>)
    ensures (forall i :: 0 <= i < |lines| ==> lines[i].Whole?) ==> lines == Wholes(Records(lines))
  {
    if lines != [] {
      RecordsOfWholes(lines[..|lines| - 1]);
    }
  }

  lemma {:induction false} WholesAreRead<T>(records: seq<T>)
    ensures Records(Wholes(records)) == records && !Torn(Wholes(records)) && !Damaged(Wholes(records))
  {
    var lines := Wholes(records);
    if records != [] {
      var shorter := records[..|records| - 1];
      WholesAreRead(shorter);
      assert lines[..|lines| - 1] == Wholes(shorter);
    }
  }

  /** A file written by appends reads back as the records that were appended, whether or not its tail was torn. */
  lemma WholesReadBack<T>(records: seq<T>, torn: bool)
    ensures var lines := Wholes(records) + (if torn then [Fragment] else []);
            Records(lines) == records && Torn(lines) == torn && !Damaged(lines)
  {
    var lines := Wholes(records);
    WholesAreRead(records);
    if torn {
      assert (lines + [Fragment])[..|lines|] == lines;
    } else {
      assert lines + [] == lines;
    }
  }
}
