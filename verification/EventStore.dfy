/** The records that the append-only event log holds, whoever writes them. */
module Events {
  import opened Wrappers
  import opened Hashing
  import StateMachine

  /** An execution result, as the executor records it. */
  datatype ExecResult = ExecResult(
    id: string, proposalId: string, digest: Digest, approvalId: Option<string>,
    outcome: string, executedAt: int, detail: Option<string>, recovered: bool)

  /** Who acts, as a caller gives it: a text, or something that is none (missing, a number); `tag` tells two of those apart. */
  datatype Actor = ActorText(text: string) | NoText(tag: nat)

  /** The log takes non-empty texts only. */
  predicate Named(a: Actor) {
    a.ActorText? && a.text != ""
  }

  /** The actor of an event to be logged; whatever is no text is refused like the empty one. */
  function Signature(a: Actor): string {
    if a.ActorText? then a.text else ""
  }

  datatype Lease = Lease(key: string, holder: Actor, token: nat, acquiredAt: int, expiresAt: int, released: bool)

  datatype Packet = Packet(project: string, workOrderId: string, hash: Digest, workerClass: string, leaseKey: string, token: nat)

  datatype Body =
    | Reserved(proposalId: string, digest: Digest, scope: string)
    | Executed(result: ExecResult, scope: string)
    | Reconciled(scope: string, original: string, resolved: string)
    | LeaseAcquired(lease: Lease)
    | LeaseReleased(key: string, token: nat)
    | WorkerDispatched(packet: Packet)
    | ProjectRegistered(project: string, workOrder: Option<StateMachine.Datum>, branch: StateMachine.Datum)
    | StateTransition(from: StateMachine.State, to: StateMachine.State, on: StateMachine.Trigger,
                      blocker: Option<StateMachine.Datum>, nextAction: Option<StateMachine.Datum>)
    | WorkOrderActivated(workOrderId: Option<StateMachine.Datum>)
    | LogRecovery(dropped: nat)
    | OtherEvent(kind: string)
    | Unwritable(kind: string)       // with a payload that JSON cannot write: a BigInt, a cycle

  /** What a caller appends, and what the log keeps of it. */
  datatype Event = Event(actor: string, key: Option<string>, body: Body)

  datatype Record = Record(event: Event, seqNo: nat, at: int)
}

/** The event store as a value: its three fields, `append`, and reload. */
module EventLog {
  import opened Wrappers
  import opened Events

  datatype Log = Log(events: seq<Record>, byKey: map<string, Record>, sequence: nat)

  const EMPTY := Log([], map[], 0)

  datatype AppendError = TypeRequired | ActorRequired | NotWritable

  datatype Appended = Appended(log: Log, record: Record, replayed: bool)

  /** The truthiness test on `idempotency_key`: an empty key is no key. */
  predicate Keyed(e: Event) {
    e.key.Some? && e.key.value != ""
  }

  predicate HasType(b: Body) {
    b.OtherEvent? || b.Unwritable? ==> b.kind != ""
  }

  function Push(log: Log, r: Record): Log {
    Log(log.events + [r],
        if Keyed(r.event) then log.byKey[r.event.key.value := r] else log.byKey,
        if log.sequence < r.seqNo then r.seqNo else log.sequence)
  }

  function Append(log: Log, e: Event, at: int): Result<Appended, AppendError> {
    if !HasType(e.body) then Err(TypeRequired)
    else if e.actor == "" then Err(ActorRequired)
    else if Keyed(e) && e.key.value in log.byKey then Ok(Appended(log, log.byKey[e.key.value], true))
    else if e.body.Unwritable? then Err(NotWritable)
    else
      var r := Record(e, log.sequence + 1, at);
      Ok(Appended(Push(log, r), r, false))
  }

  /** What a refused append leaves: one that cannot be written has used up a number. */
  function Refused(log: Log, e: Event): Log
    requires Append(log, e, 0).Err?
  {
    if Append(log, e, 0).error.NotWritable? then log.(sequence := log.sequence + 1) else log
  }

  /** Rebuilding the fields from the lines of the file. */
  function Restore(lines: seq<Record>): Log {
    if lines == [] then EMPTY else Push(Restore(lines[..|lines| - 1]), lines[|lines| - 1])
  }

  lemma {:induction false} RestoreKeepsLines(lines: seq<Record>)
    ensures Restore(lines).events == lines
  {
    if lines != [] {
      var p, r := lines[..|lines| - 1], lines[|lines| - 1];
      assert p + [r] == lines;
      RestoreKeepsLines(p);
    }
  }

  function RecoveryEvent(dropped: nat): Event {
    Event("event-store", None, LogRecovery(dropped))
  }

  lemma RecoveryIsRecorded(log: Log, dropped: nat, at: int)
    ensures var r := Record(RecoveryEvent(dropped), log.sequence + 1, at);
            Append(log, RecoveryEvent(dropped), at) == Ok(Appended(Push(log, r), r, false))
  {
  }

  /** Opening a file of whole lines that may end in a torn one. */
  function Reopen(lines: seq<Record>, torn: bool, at: int): Log {
    if torn then Push(Restore(lines), Record(RecoveryEvent(1), Restore(lines).sequence + 1, at)) else Restore(lines)
  }

  /** The number of the last event. */
  function LastNumber(lines: seq<Record>): nat {
    if lines == [] then 0 else lines[|lines| - 1].seqNo
  }

  /** How many numbers were used up since the last event was recorded. */
  function Missed(log: Log): int {
    log.sequence - LastNumber(log.events)
  }

  predicate NumbersAscend(lines: seq<Record>) {
    && (forall i :: 0 <= i < |lines| ==> lines[i].seqNo > 0)
    && forall i, j :: 0 <= i < j < |lines| ==> lines[i].seqNo < lines[j].seqNo
  }

  /** The index entry of a key is an event that carries it. */
  predicate EntryOk(log: Log, k: string)
    requires k in log.byKey
  {
    log.byKey[k] in log.events && Keyed(log.byKey[k].event) && log.byKey[k].event.key.value == k
  }

  /** An event with a key is what the index has for that key. */
  predicate Indexed(log: Log, i: nat)
    requires i < |log.events|
  {
    Keyed(log.events[i].event) ==>
      var k := log.events[i].event.key.value; k in log.byKey && log.byKey[k] == log.events[i]
  }

  /** Every key is in the index, with the one event that carries it. */
  predicate IndexExact(log: Log) {
    && (forall k {:trigger EntryOk(log, k)} :: k in log.byKey ==> EntryOk(log, k))
    && (forall i {:trigger Indexed(log, i)} :: 0 <= i < |log.events| ==> Indexed(log, i))
  }

  predicate Valid(log: Log) {
    NumbersAscend(log.events) && Missed(log) >= 0 && IndexExact(log)
  }

  /** In a valid log no two events share a key. */
  lemma KeysAreUnique(log: Log, i: nat, j: nat)
    requires Valid(log) && i < |log.events| && j < |log.events|
    requires Keyed(log.events[i].event) && log.events[i].event.key == log.events[j].event.key
    ensures i == j
  {
    assert Indexed(log, i) && Indexed(log, j);
    assert log.events[i].seqNo == log.events[j].seqNo;
  }

  lemma PushKeepsValid(log: Log, r: Record)
    requires Valid(log) && r.seqNo > log.sequence
    requires Keyed(r.event) ==> r.event.key.value !in log.byKey
    ensures Valid(Push(log, r)) && Push(log, r).events == log.events + [r]
  {
    var next := Push(log, r);
    forall i | 0 <= i < |next.events|
      ensures Indexed(next, i)
    {
      if i < |log.events| {
        assert Indexed(log, i);
      }
    }
    forall k | k in next.byKey
      ensures EntryOk(next, k)
    {
      if k in log.byKey && !(Keyed(r.event) && k == r.event.key.value) {
        assert EntryOk(log, k);
      } else {
        assert next.events[|log.events|] == r;
      }
    }
  }

  /**
   * What `append` does to a valid log: nothing for a seen key, one event
   * otherwise. Its number is the next one, unless some were used up before.
   */
  lemma AppendKeepsShape(log: Log, e: Event, at: int)
    requires Valid(log) && Append(log, e, at).Ok?
    ensures var r := Append(log, e, at).value;
            && Valid(r.log) && r.record in r.log.events
            && (r.replayed ==> r.log == log && Keyed(e) && r.record.event.key == e.key)
            && (!r.replayed ==> r.log.events == log.events + [r.record] && r.record.event == e
                                && r.record.seqNo == LastNumber(log.events) + 1 + Missed(log) && Missed(r.log) == 0)
  {
    var r := Append(log, e, at).value;
    if r.replayed {
      assert EntryOk(log, e.key.value);
    } else {
      PushKeepsValid(log, r.record);
      assert r.log.events[|log.events|] == r.record;
    }
  }

  /** A refused append records nothing, and uses up a number exactly when its event cannot be written. */
  lemma RefusedKeepsShape(log: Log, e: Event)
    requires Valid(log) && Append(log, e, 0).Err?
    ensures var r := Refused(log, e);
            && Valid(r) && r.events == log.events && r.byKey == log.byKey
            && Missed(r) == Missed(log) + (if HasType(e.body) && e.actor != "" && e.body.Unwritable? then 1 else 0)
  {
    var r := Refused(log, e);
    forall k | k in r.byKey ensures EntryOk(r, k) { assert EntryOk(log, k); }
    forall i | 0 <= i < |r.events| ensures Indexed(r, i) { assert Indexed(log, i); }
  }

  /** An append is answered from the log exactly when an event with its key is there. */
  lemma ReplayedIff(log: Log, e: Event, at: int)
    requires Valid(log) && Append(log, e, at).Ok?
    ensures Append(log, e, at).value.replayed <==>
              Keyed(e) && exists i :: 0 <= i < |log.events| && log.events[i].event.key == e.key
  {
    if Append(log, e, at).value.replayed {
      assert EntryOk(log, e.key.value);
      var i :| 0 <= i < |log.events| && log.events[i] == log.byKey[e.key.value];
      assert log.events[i].event.key == e.key;
    } else if Keyed(e) {
      forall i | 0 <= i < |log.events|
        ensures log.events[i].event.key != e.key
      {
        assert Indexed(log, i);
      }
    }
  }

  /** An event with this key, and it is a key, is in the log. */
  ghost predicate Seen(log: Log, e: Event) {
    e.key.Some? && e.key.value != "" && exists i :: 0 <= i < |log.events| && log.events[i].event.key == e.key
  }

  /** The event names its type. */
  predicate Typed(b: Body) {
    match b
    case OtherEvent(kind) => kind != ""
    case Unwritable(kind) => kind != ""
    case _ => true
  }

  /** An append asks for a type, then for an actor; then it is answered from the log if its key was seen, and else written, if it can be. */
  lemma AppendIff(log: Log, e: Event, at: int)
    requires Valid(log)
    ensures Append(log, e, at) == Err(TypeRequired) <==> !Typed(e.body)
    ensures Append(log, e, at) == Err(ActorRequired) <==> Typed(e.body) && e.actor == ""
    ensures Append(log, e, at) == Err(NotWritable) <==> Typed(e.body) && e.actor != "" && !Seen(log, e) && e.body.Unwritable?
    ensures Append(log, e, at).Ok? ==>
              var r := Append(log, e, at).value;
              if Seen(log, e) then r.replayed && r.log == log && r.record in log.events && r.record.event.key == e.key
              else
                && !r.replayed && r.record == Record(e, log.sequence + 1, at)
                && r.log.events == log.events + [r.record] && r.log.sequence == log.sequence + 1
  {
    if Typed(e.body) && e.actor != "" {
      if e.body.Unwritable? { SeenIff(log, e); }
      if Append(log, e, at).Ok? {
        ReplayedIff(log, e, at);
        AppendKeepsShape(log, e, at);
      }
    }
  }

  lemma SeenIff(log: Log, e: Event)
    requires Valid(log)
    ensures Seen(log, e) <==> Keyed(e) && e.key.value in log.byKey
  {
    if Keyed(e) && e.key.value in log.byKey {
      assert EntryOk(log, e.key.value);
      var i :| 0 <= i < |log.events| && log.events[i] == log.byKey[e.key.value];
      assert log.events[i].event.key == e.key;
    }
    if Seen(log, e) {
      var i :| 0 <= i < |log.events| && log.events[i].event.key == e.key;
      assert Indexed(log, i);
    }
  }

  /** Appending twice under one key records one event, and both calls return it. */
  lemma AppendIsIdempotent(log: Log, e: Event, at: int, e': Event, at': int)
    requires Valid(log) && Append(log, e, at).Ok? && Append(log, e', at').Ok?
    requires Keyed(e) && e'.key == e.key
    ensures var once := Append(log, e, at).value;
            Append(once.log, e', at') == Ok(Appended(once.log, once.record, true))
  {
  }

  /** The log without its last event. */
  function Shorter(log: Log): Log
    requires log.events != []
  {
    var n := |log.events|;
    var last := log.events[n - 1].event;
    Log(log.events[..n - 1], if Keyed(last) then log.byKey - {last.key.value} else log.byKey, LastNumber(log.events[..n - 1]))
  }

  lemma ShorterIndex(log: Log)
    requires Valid(log) && log.events != []
    ensures Valid(Shorter(log))
  {
    var n := |log.events|;
    var last := log.events[n - 1];
    var s := Shorter(log);
    forall i | 0 <= i < n - 1
      ensures Indexed(s, i)
    {
      assert Indexed(log, i);
      if Keyed(last.event) && log.events[i].event.key == last.event.key { KeysAreUnique(log, i, n - 1); }
    }
    forall k | k in s.byKey
      ensures EntryOk(s, k)
    {
      assert EntryOk(log, k);
      var i :| 0 <= i < n && log.events[i] == log.byKey[k];
      assert i != n - 1;
      assert s.events[i] == log.byKey[k];
    }
  }

  lemma PushShorter(log: Log)
    requires Valid(log) && log.events != []
    ensures Push(Shorter(log), log.events[|log.events| - 1]) == log.(sequence := LastNumber(log.events))
  {
    var n := |log.events|;
    var last := log.events[n - 1];
    assert Indexed(log, n - 1);
    assert log.events == log.events[..n - 1] + [last];
    if Keyed(last.event) {
      assert log.byKey == Shorter(log).byKey[last.event.key.value := last];
    }
  }

  /** Reload gives back the same fields, but for numbers used up at the end. */
  lemma {:induction false} RestoreOfValid(log: Log)
    requires Valid(log)
    ensures Restore(log.events) == log.(sequence := LastNumber(log.events))
    decreases |log.events|
  {
    if log.events == [] {
      assert forall k :: k in log.byKey ==> EntryOk(log, k);
      assert log.byKey == map[];
    } else {
      ShorterIndex(log);
      PushShorter(log);
      RestoreOfValid(Shorter(log));
    }
  }

  /** The lines of a log that only valid appends have written. */
  ghost predicate ValidLines(lines: seq<Record>) {
    exists log :: Valid(log) && log.events == lines
  }

  lemma ReloadedIsValid(log: Log)
    requires Valid(log)
    ensures Valid(log.(sequence := LastNumber(log.events)))
  {
    var again := log.(sequence := LastNumber(log.events));
    forall k | k in again.byKey ensures EntryOk(again, k) { assert EntryOk(log, k); }
    forall i | 0 <= i < |again.events| ensures Indexed(again, i) { assert Indexed(log, i); }
  }

  /** A reopened valid log has the same events, plus one recovery event for a torn tail. */
  lemma ReopenOfValid(lines: seq<Record>, torn: bool, at: int)
    requires ValidLines(lines)
    ensures var r := Reopen(lines, torn, at);
            && Valid(r)
            && r.events == if torn then lines + [Record(RecoveryEvent(1), LastNumber(lines) + 1, at)] else lines
    ensures RecoveryEvent(1) == Event("event-store", None, LogRecovery(1))
  {
    var log :| Valid(log) && log.events == lines;
    var again := log.(sequence := LastNumber(lines));
    RestoreOfValid(log);
    ReloadedIsValid(log);
    if torn {
      PushKeepsValid(again, Record(RecoveryEvent(1), again.sequence + 1, at));
    }
  }

  /** With a whole tail, reload gives back the fields themselves exactly when no number was used up since the last event. */
  lemma ReopenIsReload(log: Log, at: int)
    requires Valid(log)
    ensures Reopen(log.events, false, at) == log.(sequence := LastNumber(log.events))
    ensures Reopen(log.events, false, at) == log <==> Missed(log) == 0
  {
    RestoreOfValid(log);
  }
}

/** The event store with its file (src/state/event-store.mjs). */
module EventStores {
  import opened Wrappers
  import opened Events
  import opened LogFiles
  import EventLog

  class LogFile {
    var lines: seq<Line<Record>>
    var quarantined: nat

    constructor ()
      ensures lines == [] && quarantined == 0
    {
      lines := [];
      quarantined := 0;
    }
  }

  /** The fields after the first `i` lines were read. */
  function ReadUpTo(lines: seq<Line<Record>>, i: nat): EventLog.Log
    requires i <= |lines|
  {
    EventLog.Restore(Records(lines[..i]))
  }

  lemma ReadOneMore(lines: seq<Line<Record>>, i: nat)
    requires i < |lines|
    ensures ReadUpTo(lines, i + 1) ==
              if lines[i].Whole? then EventLog.Push(ReadUpTo(lines, i), lines[i].record) else ReadUpTo(lines, i)
  {
    assert lines[..i + 1][..i] == lines[..i];
    var rs := Records(lines[..i]);
    if lines[i].Whole? {
      assert (rs + [lines[i].record])[..|rs|] == rs;
    }
  }

  lemma ReadAll(lines: seq<Line<Record>>)
    ensures ReadUpTo(lines, |lines|) == EventLog.Restore(Records(lines))
    ensures ReadUpTo(lines, |lines|).events == Records(lines)
  {
    assert lines[..|lines|] == lines;
    EventLog.RestoreKeepsLines(Records(lines));
  }

  class EventStore {
    var events: seq<Record>
    var byKey: map<string, Record>
    var sequence: nat
    const file: LogFile

    ghost function View(): EventLog.Log
      reads this
    {
      EventLog.Log(events, byKey, sequence)
    }

    /** The fields are a valid log and the file holds exactly its events. */
    ghost predicate Valid()
      reads this, file
    {
      EventLog.Valid(View()) && file.lines == Wholes(events)
    }

    constructor (file: LogFile)
      ensures this.file == file && View() == EventLog.EMPTY
    {
      this.file := file;
      events, byKey, sequence := [], map[], 0;
    }

    /** Takes one parsed line into the fields. */
    method Take(ev: Record)
      modifies this
      ensures View() == EventLog.Push(old(View()), ev)
    {
      events := events + [ev];
      sequence := if sequence < ev.seqNo then ev.seqNo else sequence;
      if EventLog.Keyed(ev.event) {
        byKey := byKey[ev.event.key.value := ev];
      }
    }

    /** The reading loop of `#load`: counts a fragment at the end, stops at one anywhere else. */
    method ReadLines() returns (r: Result<nat, nat>)
      requires View() == EventLog.EMPTY
      modifies this
      ensures r.Err? <==> Damaged(file.lines)
      ensures r.Err? ==> r.error > 0 && DamagedAt(file.lines, r.error - 1)
      ensures r.Ok? ==> View() == EventLog.Restore(Records(file.lines)) && events == Records(file.lines)
      ensures r.Ok? ==> r.value == if Torn(file.lines) then 1 else 0
    {
      var corrupt: nat := 0;
      var lines := file.lines;
      for i := 0 to |lines|
        invariant View() == ReadUpTo(lines, i)
        invariant WholeSoFar(lines, i, corrupt)
      {
        ReadOneMore(lines, i);
        WholeOn(lines, i);
        match lines[i]
        case Fragment =>
          if i == |lines| - 1 {
            corrupt := corrupt + 1;
          } else {
            return Err(i + 1);
          }
        case Whole(ev) =>
          Take(ev);
      }
      ReadAll(lines);
      WholeAll(lines, corrupt);
      r := Ok(corrupt);
    }

    /**
     * `#load`: reads the file into the fields. A fragment is dropped and noted
     * when it is the last line and refused, with its line number, anywhere else.
     */
    method Load(at: int) returns (r: Result<bool, nat>)
      requires View() == EventLog.EMPTY
      modifies this, file
      ensures r.Err? <==> Damaged(old(file.lines))
      ensures r.Err? ==> r.error > 0 && DamagedAt(old(file.lines), r.error - 1) && file.lines == old(file.lines)
      ensures r.Ok? ==> View() == EventLog.Reopen(Records(old(file.lines)), Torn(old(file.lines)), at)
      ensures r.Ok? ==> file.lines == Wholes(events)
    {
      var read := ReadLines();
      if read.Err? {
        return Err(read.error);
      }
      if read.value > 0 {
        file.quarantined := file.quarantined + read.value;
        file.lines := Wholes(events);
        EventLog.RecoveryIsRecorded(View(), read.value, at);
        var recovered := Append(EventLog.RecoveryEvent(read.value), at);
      } else {
        WholesIfUndamaged(file.lines);
      }
      r := Ok(true);
    }

    /** `append`: a repeated key gives back the original event and records nothing. */
    method Append(e: Event, at: int) returns (r: Result<(Record, bool), EventLog.AppendError>)
      modifies this, file
      ensures var spec := EventLog.Append(old(View()), e, at);
              match spec {
                case Err(x) => r == Err(x) && View() == EventLog.Refused(old(View()), e) && file.lines == old(file.lines)
                case Ok(a) =>
                  && r == Ok((a.record, a.replayed)) && View() == a.log
                  && file.lines == (if a.replayed then old(file.lines) else old(file.lines) + [Whole(a.record)])
              }
      ensures old(file.lines) == Wholes(old(events)) ==> file.lines == Wholes(events)
      ensures old(Valid()) ==> Valid()
      ensures file.quarantined == old(file.quarantined)
    {
      if !EventLog.HasType(e.body) {
        return Err(EventLog.TypeRequired);
      }
      if e.actor == "" {
        return Err(EventLog.ActorRequired);
      }
      if EventLog.Keyed(e) && e.key.value in byKey {
        return Ok((byKey[e.key.value], true));
      }
      ghost var before := View();
      sequence := sequence + 1;
      if e.body.Unwritable? {
        if EventLog.Valid(before) {
          EventLog.RefusedKeepsShape(before, e);
        }
        return Err(EventLog.NotWritable);
      }
      var record := Record(e, sequence, at);
      file.lines := file.lines + [Whole(record)];
      events := events + [record];
      if EventLog.Keyed(e) {
        byKey := byKey[e.key.value := record];
      }
      if EventLog.Valid(before) {
        EventLog.AppendKeepsShape(before, e, at);
      }
      r := Ok((record, false));
    }
  }
}
