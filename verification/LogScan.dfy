/** Reading one run's log file: its complete lines, and the tail a crash may
    have left after the last newline. */
module LogScan {
  import opened Utf8
  import opened AgentEvents
  import opened EventCodec

  const NEWLINE: Byte := 10

  /** The fixed surroundings of one log: which timestamps parse, and the run. */
  datatype Log = Log(iso: IsoTime, runId: Text)

  /** What _read_locked finds before it repairs anything. */
  datatype Scan =
    | Corrupt
    | Clean(events: seq<AgentEvent>)
    | Torn(events: seq<AgentEvent>, tail: Bytes)
    | Unterminated(events: seq<AgentEvent>)

  predicate HasId(events: seq<AgentEvent>, id: Text) {
    exists i | 0 <= i < |events| :: events[i].eventId == id
  }

  /** _validate_record against the events before it */
  predicate ValidRecord(g: Log, events: seq<AgentEvent>, e: AgentEvent) {
    e.runId == g.runId && e.sequence == |events| + 1 && !HasId(events, e.eventId)
  }

  /** The first newline, or the length. */
  function LineEnd(bs: Bytes): (n: nat)
    ensures n <= |bs|
    ensures forall i | 0 <= i < n :: bs[i] != NEWLINE
    ensures n < |bs| ==> bs[n] == NEWLINE
  {
    if bs == [] || bs[0] == NEWLINE then 0 else 1 + LineEnd(bs[1..])
  }

  function ScanTail(g: Log, events: seq<AgentEvent>, tail: Bytes): Scan {
    if tail == [] then Clean(events)
    else
      match DecodeEvent(g.iso, tail)
      case NotJson => Torn(events, tail)
      case Invalid => Corrupt
      case Event(e) => if ValidRecord(g, events, e) then Unterminated(events + [e]) else Corrupt
  }

  /** The rest of a file whose lines so far hold `events`. */
  function ScanFrom(g: Log, events: seq<AgentEvent>, bs: Bytes): Scan
    decreases |bs|
  {
    var n := LineEnd(bs);
    if n == |bs| then ScanTail(g, events, bs)
    else
      match DecodeEvent(g.iso, bs[..n])
      case Event(e) => if ValidRecord(g, events, e) then ScanFrom(g, events + [e], bs[n + 1..]) else Corrupt
      case _ => Corrupt
  }

  function ScanFile(g: Log, bs: Bytes): Scan {
    ScanFrom(g, [], bs)
  }

  // ----- the file as a sequence of events -----

  /** One run, numbers 1..n, distinct identifiers, every event storable. */
  predicate IsLog(g: Log, events: seq<AgentEvent>) {
    && (forall i | 0 <= i < |events| :: Storable(g.iso, events[i]) && events[i].runId == g.runId && events[i].sequence == i + 1)
    && (forall i, j | 0 <= i < j < |events| :: events[i].eventId != events[j].eventId)
  }

  function Document(e: AgentEvent): (bs: Bytes) {
    if EncodeEvent(e).Some? then EncodeEvent(e).value else []
  }

  function Line(e: AgentEvent): (bs: Bytes) {
    Document(e) + [NEWLINE]
  }

  /** The bytes of a log that holds exactly `events`. */
  function Image(events: seq<AgentEvent>): (bs: Bytes) {
    if events == [] then [] else Image(events[..|events| - 1]) + Line(events[|events| - 1])
  }

  predicate Extends(g: Log, events: seq<AgentEvent>, e: AgentEvent) {
    IsLog(g, events) && Storable(g.iso, e) && ValidRecord(g, events, e)
  }

  lemma ExtendsIsLog(g: Log, events: seq<AgentEvent>, e: AgentEvent)
    requires Extends(g, events, e)
    ensures IsLog(g, events + [e]) && Image(events + [e]) == Image(events) + Line(e)
  {
    hide Storable;
    assert (events + [e])[..|events|] == events;
  }

  lemma LineEndOf(line: Bytes, rest: Bytes)
    requires NEWLINE !in line
    ensures LineEnd(line + [NEWLINE] + rest) == |line|
    ensures (line + [NEWLINE] + rest)[..|line|] == line && (line + [NEWLINE] + rest)[|line| + 1..] == rest
    ensures LineEnd(line) == |line|
  {
    var bs := line + [NEWLINE] + rest;
    assert bs[|line|] == NEWLINE;
    assert forall i | 0 <= i < |line| :: bs[i] == line[i] && line[i] != NEWLINE;
  }

  lemma StorableEncodes(iso: IsoTime, e: AgentEvent)
    requires Storable(iso, e)
    ensures EncodeEvent(e) == Some(Document(e))
  {
  }

  lemma ScanLine(g: Log, events: seq<AgentEvent>, e: AgentEvent, rest: Bytes)
    requires Extends(g, events, e)
    ensures ScanFrom(g, events, Line(e) + rest) == ScanFrom(g, events + [e], rest)
  {
    StorableEncodes(g.iso, e);
    hide Storable, EncodeEvent, DecodeEvent;
    EventRoundTrip(g.iso, e);
    LineEndOf(Document(e), rest);
  }

  /** A log file reads back as its events, and then its tail. */
  lemma {:induction false} ScanImage(g: Log, events: seq<AgentEvent>, rest: Bytes)
    requires IsLog(g, events)
    ensures ScanFile(g, Image(events) + rest) == ScanFrom(g, events, rest)
    decreases |events|
  {
    hide Storable, EncodeEvent;
    if events == [] {
      assert Image(events) + rest == rest;
    } else {
      var init := events[..|events| - 1];
      var last := events[|events| - 1];
      assert events == init + [last];
      assert !HasId(init, last.eventId);
      ScanImage(g, init, Line(last) + rest);
      assert Image(events) + rest == Image(init) + (Line(last) + rest);
      ScanLine(g, init, last, rest);
    }
  }

  /** Whatever the file holds, a scan that succeeds gives one run, numbered
      from one, without repeated identifiers. */
  lemma {:induction false} ScanSound(g: Log, events: seq<AgentEvent>, bs: Bytes)
    requires Numbered(g, events)
    ensures var s := ScanFrom(g, events, bs); !s.Corrupt? ==> Numbered(g, s.events) && events <= s.events
    decreases |bs|
  {
    hide DecodeEvent;
    var n := LineEnd(bs);
    var read := DecodeEvent(g.iso, bs[..n]);
    assert bs[..|bs|] == bs;
    if read.Event? && ValidRecord(g, events, read.e) {
      NumberedMore(g, events, read.e);
      if n < |bs| { ScanSound(g, events + [read.e], bs[n + 1..]); }
    }
  }

  lemma NumberedMore(g: Log, events: seq<AgentEvent>, e: AgentEvent)
    requires Numbered(g, events) && ValidRecord(g, events, e)
    ensures Numbered(g, events + [e])
  {
  }

  predicate Numbered(g: Log, events: seq<AgentEvent>) {
    && (forall i | 0 <= i < |events| :: events[i].runId == g.runId && events[i].sequence == i + 1)
    && (forall i, j | 0 <= i < j < |events| :: events[i].eventId != events[j].eventId)
  }
}
