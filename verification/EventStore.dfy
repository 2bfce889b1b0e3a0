/** RuntimeEventStore: appending, replaying and paging over per-run log files. */
module EventStore {
  import opened Utf8
  import opened AgentEvents
  import opened EventCodec
  import opened LogScan
  import opened LogCrash

  datatype Result<+T> = Ok(value: T) | Failed

  predicate SafeChar(c: Code, first: bool) {
    48 <= c <= 57 || 65 <= c <= 90 || 97 <= c <= 122 || (!first && (c == 45 || c == 46 || c == 95))
  }

  /** The _RUN_ID pattern. */
  predicate SafeRunId(id: Text) {
    1 <= |id| <= 128 && SafeChar(id[0], true) && forall i | 1 <= i < |id| :: SafeChar(id[i], false)
  }

  function Min(a: int, b: int): (m: int) {
    if a < b then a else b
  }

  /** Python's events[after : after + limit] */
  function Page(events: seq<AgentEvent>, after: nat, limit: nat): (p: seq<AgentEvent>)
    ensures |p| <= limit
  {
    if after >= |events| then [] else events[after..Min(|events|, after + limit)]
  }

  /** `replay(after, limit)` is the first `limit` events numbered above `after`. */
  lemma PageBySequence(g: Log, events: seq<AgentEvent>, after: nat, limit: nat)
    requires Numbered(g, events)
    ensures var p := Page(events, after, limit);
            (forall i | 0 <= i < |p| :: p[i].sequence == after + i + 1 && p[i] in events)
            && (forall e | e in events && e.sequence > after :: e in p || (|p| == limit && e.sequence > after + limit))
  {
    var p := Page(events, after, limit);
    forall e | e in events && e.sequence > after
      ensures e in p || (|p| == limit && e.sequence > after + limit)
    {
      var i :| 0 <= i < |events| && events[i] == e;
      if i - after < |p| { assert p[i - after] == e; }
    }
  }

  /** The identity conditions of a query; None asks nothing. */
  datatype Filter = Filter(
    requirementId: Option<Text>, taskId: Option<Text>, executionId: Option<Text>,
    runtimeId: Option<Text>, sessionId: Option<Text>)

  predicate Matches(f: Filter, e: AgentEvent) {
    && (f.requirementId.Some? ==> e.requirementId == f.requirementId)
    && (f.taskId.Some? ==> e.taskId == f.taskId)
    && (f.executionId.Some? ==> e.executionId == f.executionId)
    && (f.runtimeId.Some? ==> e.runtimeId == f.runtimeId.value)
    && (f.sessionId.Some? ==> e.sessionId == f.sessionId)
  }

  function Select(f: Filter, events: seq<AgentEvent>): seq<AgentEvent> {
    if events == [] then []
    else Select(f, events[..|events| - 1]) + (if Matches(f, events[|events| - 1]) then [events[|events| - 1]] else [])
  }

  /** What an append works on, or None when it is refused before any file is
      touched. */
  function Incoming(iso: IsoTime, e: AgentEvent): Option<AgentEvent> {
    match Copied(iso, e)
    case None => None
    case Some(i) => if SafeRunId(i.runId) then Some(i) else None
  }

  function Reply(a: Answer): Result<AgentEvent> {
    if a.Conflict? then Failed else Ok(a.e)
  }

  class RuntimeEventStore {
    const iso: IsoTime
    /** One log per run id: the file name is a digest of the id. */
    var disks: map<Text, Disk>
    /** Every write made so far to each run's files, in order. */
    ghost var writes: map<Text, seq<Write>>

    constructor (iso: IsoTime)
      ensures this.iso == iso && disks == map[] && writes == map[]
    {
      this.iso := iso;
      disks, writes := map[], map[];
    }

    function DiskOf(runId: Text): Disk
      reads this
    {
      if runId in disks then disks[runId] else Disk([], [])
    }

    ghost function WritesTo(runId: Text): seq<Write>
      reads this
    {
      if runId in writes then writes[runId] else []
    }

    function Now(runId: Text): Scan
      reads this
    {
      ScanFile(Log(iso, runId), DiskOf(runId).log)
    }

    twostate predicate OthersKept(runId: Text)
      reads this
    {
      forall x | x != runId :: DiskOf(x) == old(DiskOf(x)) && WritesTo(x) == old(WritesTo(x))
    }

    /** One file operation, durable when it returns. */
    method Perform(runId: Text, w: Write)
      modifies this
      ensures DiskOf(runId) == Apply(old(DiskOf(runId)), w)
      ensures WritesTo(runId) == old(WritesTo(runId)) + [w]
      ensures OthersKept(runId)
    {
      disks := disks[runId := Apply(DiskOf(runId), w)];
      writes := writes[runId := WritesTo(runId) + [w]];
    }

    /** The complete lines: their events and identifiers, and the tail after
        them. */
    method ReadLines(runId: Text, raw: Bytes)
      returns (ok: bool, events: seq<AgentEvent>, identifiers: set<Text>, tail: Bytes)
      ensures !ok ==> ScanFile(Log(iso, runId), raw) == Corrupt
      ensures ok ==> ScanFile(Log(iso, runId), raw) == ScanTail(Log(iso, runId), events, tail) && |tail| <= |raw|
      ensures ok ==> forall x :: x in identifiers <==> HasId(events, x)
    {
      hide DecodeEvent, HasId, LineEnd;
      var g := Log(iso, runId);
      ok, events, identifiers, tail := true, [], {}, raw;
      NoIds();
      while LineEnd(tail) < |tail|
        invariant ScanFrom(g, events, tail) == ScanFile(g, raw)
        invariant forall x :: x in identifiers <==> HasId(events, x)
        invariant |tail| <= |raw|
        decreases |tail|
      {
        var n := LineEnd(tail);
        var read := DecodeEvent(iso, tail[..n]);
        if !read.Event? || read.e.runId != runId || read.e.sequence != |events| + 1 || read.e.eventId in identifiers {
          ok := false;
          return;
        }
        HasIdMore(events, read.e);
        events, identifiers, tail := events + [read.e], identifiers + {read.e.eventId}, tail[n + 1..];
      }
    }

    /** Validate every complete line, then repair the tail: back it up and cut
        it off when it is not JSON yet, end it when only the newline is
        missing. */
    method ReadLocked(runId: Text) returns (r: Result<seq<AgentEvent>>)
      modifies this
      ensures r == if old(Now(runId)).Corrupt? then Failed else Ok(old(Now(runId)).events)
      ensures var ws := Repair(old(Now(runId)), old(DiskOf(runId)).log);
              DiskOf(runId) == ApplyAll(old(DiskOf(runId)), ws) && WritesTo(runId) == old(WritesTo(runId)) + ws
      ensures OthersKept(runId)
    {
      hide DecodeEvent, HasId, ScanFile, Apply;
      var d := DiskOf(runId);
      var ok, events, identifiers, tail := ReadLines(runId, d.log);
      if !ok { return Failed; }
      if tail == [] { return Ok(events); }
      match DecodeEvent(iso, tail) {
        case NotJson =>
          Perform(runId, Backup(tail));
          Perform(runId, Cut(|d.log| - |tail|));
          TwoWrites(d, Backup(tail), Cut(|d.log| - |tail|));
          return Ok(events);
        case Invalid =>
          return Failed;
        case Event(e) =>
          if e.runId != runId || e.sequence != |events| + 1 || e.eventId in identifiers { return Failed; }
          Perform(runId, Extend([NEWLINE]));
          OneWrite(d, Extend([NEWLINE]));
          return Ok(events + [e]);
      }
    }

    /** Store an event once: the same identifier with the same content is
        answered with the stored event, with other content refused. */
    method Append(event: AgentEvent) returns (r: Result<AgentEvent>)
      requires JsonValued(event)
      modifies this
      ensures Incoming(iso, event) == None ==> r == Failed && disks == old(disks) && writes == old(writes)
      ensures Incoming(iso, event).Some? ==>
                var i := Incoming(iso, event).value;
                var s := old(Now(i.runId));
                var ws := Script(Log(iso, i.runId), old(DiskOf(i.runId)), Call.Append(i));
                && r == (if s.Corrupt? then Failed else Reply(Decide(s.events, i)))
                && DiskOf(i.runId) == ApplyAll(old(DiskOf(i.runId)), ws)
                && WritesTo(i.runId) == old(WritesTo(i.runId)) + ws
                && OthersKept(i.runId)
    {
      hide DecodeEvent, Identity, EncodeEvent, ScanFile, Copied, Line, Apply, SafeRunId, HasId;
      var copy := Copied(iso, event);
      if copy == None || !SafeRunId(copy.value.runId) { return Failed; }
      var incoming := copy.value;
      ghost var before := DiskOf(incoming.runId);
      ghost var s := Now(incoming.runId);
      var read := ReadLocked(incoming.runId);
      if read.Failed? { return Failed; }
      var events := read.value;
      var content := Identity(incoming);
      var i := 0;
      while i < |events|
        invariant 0 <= i <= |events|
        invariant forall j | 0 <= j < i :: events[j].eventId != incoming.eventId
      {
        if events[i].eventId == incoming.eventId {
          FoundFirst(events, incoming.eventId, i);
          if Identity(events[i]) != content { return Failed; }
          return Ok(events[i]);
        }
        i := i + 1;
      }
      FoundFirst(events, incoming.eventId, i);
      var numbered := incoming.(sequence := |events| + 1);
      Perform(incoming.runId, Extend(Line(numbered)));
      ApplyConcat(before, Repair(s, before.log), Extend(Line(numbered)));
      return Ok(numbered);
    }

    /** The events numbered above `after`, at most `limit` of them. */
    method Replay(runId: Text, after: int, limit: int) returns (r: Result<seq<AgentEvent>>)
      modifies this
      ensures after < 0 || limit <= 0 || !SafeRunId(runId) ==> r == Failed && disks == old(disks) && writes == old(writes)
      ensures after >= 0 && limit > 0 && SafeRunId(runId) ==>
                && r == (if old(Now(runId)).Corrupt? then Failed else Ok(Page(old(Now(runId)).events, after, limit)))
                && (var ws := Script(Log(iso, runId), old(DiskOf(runId)), Read);
                    DiskOf(runId) == ApplyAll(old(DiskOf(runId)), ws) && WritesTo(runId) == old(WritesTo(runId)) + ws)
                && OthersKept(runId)
    {
      hide ScanFile;
      if after < 0 || limit <= 0 || !SafeRunId(runId) { return Failed; }
      var read := ReadLocked(runId);
      if read.Failed? { return Failed; }
      return Ok(Page(read.value, after, limit));
    }

    /** Whatever other processes append to one run's log between two of our
        calls; `bound` is how long they ever make it. */
    method Others(runId: Text, ghost bound: nat)
      requires !Now(runId).Corrupt? ==> |Now(runId).events| <= bound
      modifies this
      ensures !old(Now(runId)).Corrupt? ==>
                !Now(runId).Corrupt? && old(Now(runId)).events <= Now(runId).events && |Now(runId).events| <= bound
    {
    }

    /** A query for one execution reads its whole log page by page while others
        append: `all` is a version of the log between the first and the last
        page, without a gap or a repeat. */
    method QueryExecution(f: Filter, after: int, limit: int, ghost bound: nat)
      returns (r: Result<seq<AgentEvent>>, ghost all: seq<AgentEvent>)
      requires f.executionId.Some? && f.executionId.value != []
      requires !Now(f.executionId.value).Corrupt? ==> |Now(f.executionId.value).events| <= bound
      modifies this
      ensures r.Failed? <==> after < 0 || limit <= 0 || !SafeRunId(f.executionId.value) || old(Now(f.executionId.value)).Corrupt?
      ensures r.Ok? ==> r.value == Page(Select(f, all), after, limit)
      ensures r.Ok? ==> !Now(f.executionId.value).Corrupt?
                        && old(Now(f.executionId.value)).events <= all <= Now(f.executionId.value).events
    {
      hide ScanFile, Script;
      all := [];
      if after < 0 || limit <= 0 { return Failed, all; }
      var runId := f.executionId.value;
      if !SafeRunId(runId) { return Failed, all; }
      var events: seq<AgentEvent>, cursor: nat := [], 0;
      while true
        invariant cursor == |events| <= bound || Now(runId).Corrupt?
        invariant old(Now(runId)).Corrupt? || !Now(runId).Corrupt?
        invariant !Now(runId).Corrupt? ==> events <= Now(runId).events && |Now(runId).events| <= bound
        invariant !old(Now(runId)).Corrupt? ==> old(Now(runId)).events <= Now(runId).events
        invariant old(Now(runId)).Corrupt? ==> disks == old(disks)
        decreases bound - cursor
      {
        if !Now(runId).Corrupt? { Others(runId, bound); }
        ghost var snapshot := Now(runId);
        ghost var d := DiskOf(runId);
        var page := Replay(runId, cursor, 1000);
        if page.Failed? { return Failed, all; }
        RepairKeepsScan(Log(iso, runId), d);
        assert Now(runId).events == snapshot.events by { ReadScript(Log(iso, runId), d); }
        events := events + page.value;
        assert events == snapshot.events[..|events|];
        if |page.value| < 1000 { break; }
        cursor := cursor + |page.value|;
      }
      all := events;
      return Ok(Page(Select(f, events), after, limit)), all;
    }
  }

  lemma ReadScript(g: Log, d: Disk)
    requires !ScanFile(g, d.log).Corrupt?
    ensures Script(g, d, Read) == Repair(ScanFile(g, d.log), d.log)
  {
  }

  lemma OneWrite(d: Disk, w: Write)
    ensures ApplyAll(d, [w]) == Apply(d, w)
  {
  }

  lemma TwoWrites(d: Disk, v: Write, w: Write)
    ensures ApplyAll(d, [v, w]) == Apply(Apply(d, v), w)
  {
    assert [v, w][1..] == [w];
    OneWrite(Apply(d, v), w);
  }

  lemma NoIds()
    ensures forall x :: !HasId([], x)
  {
  }

  lemma HasIdMore(events: seq<AgentEvent>, e: AgentEvent)
    ensures forall x :: HasId(events + [e], x) <==> HasId(events, x) || x == e.eventId
  {
    forall x ensures HasId(events + [e], x) <==> HasId(events, x) || x == e.eventId {
      if HasId(events, x) {
        var i :| 0 <= i < |events| && events[i].eventId == x;
        assert (events + [e])[i].eventId == x;
      }
      assert (events + [e])[|events|] == e;
    }
  }

  lemma FoundFirst(events: seq<AgentEvent>, id: Text, i: nat)
    requires i <= |events| && (i < |events| ==> events[i].eventId == id)
    requires forall j | 0 <= j < i :: events[j].eventId != id
    ensures Find(events, id) == i
  {
  }
}
