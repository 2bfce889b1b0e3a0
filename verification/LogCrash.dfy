/** One run's log on disk, the writes each operation makes to it, and what a
    crash inside those writes can leave behind. */
module LogCrash {
  import opened Utf8
  import opened AgentEvents
  import opened EventCodec
  import opened LogScan

  /** The log file and the tail backups beside it. */
  datatype Disk = Disk(log: Bytes, backups: seq<Bytes>)

  datatype Write = Backup(bytes: Bytes) | Cut(size: nat) | Extend(bytes: Bytes)

  function Apply(d: Disk, w: Write): Disk {
    match w
    case Backup(b) => d.(backups := d.backups + [b])
    case Cut(size) => if size <= |d.log| then d.(log := d.log[..size]) else d
    case Extend(b) => d.(log := d.log + b)
  }

  /** A crash after `n` bytes of the write; a truncation is all or nothing. */
  function Interrupt(d: Disk, w: Write, n: nat): Disk {
    match w
    case Backup(b) => if n <= |b| then d.(backups := d.backups + [b[..n]]) else Apply(d, w)
    case Cut(_) => d
    case Extend(b) => if n <= |b| then d.(log := d.log + b[..n]) else Apply(d, w)
  }

  function ApplyAll(d: Disk, ws: seq<Write>): Disk
    decreases |ws|
  {
    if ws == [] then d else ApplyAll(Apply(d, ws[0]), ws[1..])
  }

  /** The writes of _read_locked. */
  function Repair(s: Scan, log: Bytes): seq<Write> {
    match s
    case Torn(_, tail) => if |tail| <= |log| then [Backup(tail), Cut(|log| - |tail|)] else []
    case Unterminated(_) => [Extend([NEWLINE])]
    case _ => []
  }

  /** What append answers: an identifier taken by other content, the event
      already stored, or the event with its new number. */
  datatype Answer = Conflict | Existing(e: AgentEvent) | Assigned(e: AgentEvent)

  function Find(events: seq<AgentEvent>, id: Text): (i: nat)
    ensures i <= |events|
    ensures i < |events| ==> events[i].eventId == id
    ensures i == |events| <==> !HasId(events, id)
    ensures forall j | 0 <= j < i :: events[j].eventId != id
  {
    if events == [] then 0
    else if events[0].eventId == id then 0
    else
      var i := 1 + Find(events[1..], id);
      assert forall j | 1 <= j < |events| :: events[j] == events[1..][j - 1];
      i
  }

  function Decide(events: seq<AgentEvent>, incoming: AgentEvent): Answer {
    var i := Find(events, incoming.eventId);
    if i == |events| then Assigned(incoming.(sequence := |events| + 1))
    else if Identity(events[i]) != Identity(incoming) then Conflict
    else Existing(events[i])
  }

  datatype Call = Read | Append(incoming: AgentEvent)

  /** The writes a call makes, in order, on a log it can read. */
  function Script(g: Log, d: Disk, call: Call): seq<Write> {
    var s := ScanFile(g, d.log);
    if s.Corrupt? then []
    else if call.Append? && Decide(s.events, call.incoming).Assigned? then
      Repair(s, d.log) + [Extend(Line(Decide(s.events, call.incoming).e))]
    else Repair(s, d.log)
  }

  /** A call that stopped after `steps` whole writes and `bytes` of the next;
      with `steps` past the last write it ran to its end. */
  datatype Act = Act(call: Call, steps: nat, bytes: nat)

  function Leaves(g: Log, d: Disk, a: Act): Disk {
    var ws := Script(g, d, a.call);
    if a.steps >= |ws| then ApplyAll(d, ws)
    else Interrupt(ApplyAll(d, ws[..a.steps]), ws[a.steps], a.bytes)
  }

  function RunAll(g: Log, d: Disk, acts: seq<Act>): Disk
    decreases |acts|
  {
    if acts == [] then d else RunAll(g, Leaves(g, d, acts[0]), acts[1..])
  }

  predicate Admissible(g: Log, call: Call) {
    call.Append? ==> Storable(g.iso, call.incoming) && call.incoming.runId == g.runId
  }

  // ----- what the bytes stand for -----

  /** A whole log, possibly followed by part of one more event. */
  datatype Rest = Rest(events: seq<AgentEvent>, pending: Option<AgentEvent>, cut: nat)

  predicate Holds(g: Log, r: Rest, log: Bytes) {
    && IsLog(g, r.events)
    && match r.pending
       case None => log == Image(r.events)
       case Some(e) => Extends(g, r.events, e) && 0 < r.cut <= |Document(e)|
                       && log == Image(r.events) + Document(e)[..r.cut]
  }

  function Meaning(r: Rest): seq<AgentEvent> {
    if r.pending.Some? && r.cut == |Document(r.pending.value)| then r.events + [r.pending.value] else r.events
  }

  function ScanOf(r: Rest): Scan
    requires r.pending.Some? ==> r.cut <= |Document(r.pending.value)|
  {
    match r.pending
    case None => Clean(r.events)
    case Some(e) =>
      if r.cut == |Document(e)| then Unterminated(r.events + [e]) else Torn(r.events, Document(e)[..r.cut])
  }

  ghost predicate WellKept(g: Log, log: Bytes) {
    exists r :: Holds(g, r, log)
  }

  lemma DocumentFacts(g: Log, e: AgentEvent)
    requires Storable(g.iso, e)
    ensures NEWLINE !in Document(e) && Document(e) != []
    ensures DecodeEvent(g.iso, Document(e)) == Event(e)
    ensures forall n: nat | n < |Document(e)| :: DecodeEvent(g.iso, Document(e)[..n]) == NotJson
  {
    hide Storable, DecodeEvent;
    StorableEncodes(g.iso, e);
    EventRoundTrip(g.iso, e);
    forall n: nat | n < |Document(e)| ensures DecodeEvent(g.iso, Document(e)[..n]) == NotJson { EventTorn(g.iso, e, n); }
    NotEmpty(g.iso, e);
  }

  lemma NotEmpty(iso: IsoTime, e: AgentEvent)
    requires DecodeEvent(iso, Document(e)).Event?
    ensures Document(e) != []
  {
  }

  lemma NoNewlineIn(bs: Bytes)
    requires NEWLINE !in bs
    ensures LineEnd(bs) == |bs|
  {
  }

  /** The scan recovers exactly what the bytes stand for. */
  lemma ScanHolds(g: Log, r: Rest, log: Bytes)
    requires Holds(g, r, log)
    ensures ScanFile(g, log) == ScanOf(r)
    ensures !ScanFile(g, log).Corrupt? && ScanFile(g, log).events == Meaning(r)
  {
    hide Storable, DecodeEvent, Document, Image, IsLog;
    match r.pending
    case None =>
      ScanImage(g, r.events, []);
      assert Image(r.events) + [] == Image(r.events);
    case Some(e) =>
      var tail := Document(e)[..r.cut];
      DocumentFacts(g, e);
      NoNewlineIn(tail);
      ScanImage(g, r.events, tail);
      if r.cut == |Document(e)| { assert tail == Document(e); }
  }

  // ----- every crash point -----

  function Settled(events: seq<AgentEvent>): Rest {
    Rest(events, None, 0)
  }

  lemma MeaningIsLog(g: Log, r: Rest, log: Bytes)
    requires Holds(g, r, log)
    ensures IsLog(g, Meaning(r))
  {
    hide Storable, DecodeEvent, Image, IsLog, Document;
    if r.pending.Some? { ExtendsIsLog(g, r.events, r.pending.value); }
  }

  /** The repairs bring the file to the image of what it stands for. */
  lemma RepairSettles(g: Log, r: Rest, d: Disk)
    requires Holds(g, r, d.log)
    ensures ApplyAll(d, Repair(ScanFile(g, d.log), d.log)).log == Image(Meaning(r))
    ensures Holds(g, Settled(Meaning(r)), Image(Meaning(r)))
    ensures |Repair(ScanFile(g, d.log), d.log)| <= 2
  {
    hide Storable, DecodeEvent, Image, IsLog, ScanFile;
    ScanHolds(g, r, d.log);
    MeaningIsLog(g, r, d.log);
    if r.pending.Some? {
      var e := r.pending.value;
      ExtendsIsLog(g, r.events, e);
      if r.cut == |Document(e)| {
        assert Document(e)[..r.cut] == Document(e);
        assert d.log + [NEWLINE] == Image(r.events) + Line(e);
        assert ApplyAll(d, [Extend([NEWLINE])]) == d.(log := d.log + [NEWLINE]);
      } else {
        var tail := Document(e)[..r.cut];
        CutTail(d, Image(r.events), tail);
      }
    }
  }

  lemma CutTail(d: Disk, whole: Bytes, tail: Bytes)
    requires d.log == whole + tail
    ensures ApplyAll(d, [Backup(tail), Cut(|whole|)]) == Disk(whole, d.backups + [tail])
  {
    var d1 := Apply(d, Backup(tail));
    assert [Backup(tail), Cut(|whole|)][1..] == [Cut(|whole|)];
    assert ApplyAll(d1, [Cut(|whole|)]) == Apply(d1, Cut(|whole|));
  }

  /** A crash inside the repairs changes nothing of what the file stands for,
      and the bytes a truncation removed are in a backup. */
  lemma RepairCrash(g: Log, r: Rest, d: Disk, steps: nat, bytes: nat) returns (r': Rest)
    requires Holds(g, r, d.log)
    requires steps < |Repair(ScanFile(g, d.log), d.log)|
    ensures var ws := Repair(ScanFile(g, d.log), d.log);
            var d' := Interrupt(ApplyAll(d, ws[..steps]), ws[steps], bytes);
            Holds(g, r', d'.log) && Meaning(r') == Meaning(r) && d.backups <= d'.backups
  {
    hide Storable, DecodeEvent, Image, IsLog, ScanFile;
    ScanHolds(g, r, d.log);
    var ws := Repair(ScanFile(g, d.log), d.log);
    var d' := Interrupt(ApplyAll(d, ws[..steps]), ws[steps], bytes);
    if steps == 0 {
      assert ApplyAll(d, ws[..0]) == d;
      r' := r;
      if r.cut == |Document(r.pending.value)| {
        if bytes > 0 {
          var e := r.pending.value;
          ExtendsIsLog(g, r.events, e);
          assert Document(e)[..r.cut] == Document(e);
          assert [NEWLINE][..1] == [NEWLINE];
          assert d'.log == d.log + [NEWLINE];
          assert d'.log == Image(r.events) + Line(e);
          r' := Settled(Meaning(r));
        } else {
          assert d.log + [NEWLINE][..0] == d.log;
        }
      }
    } else {
      assert ws[..1] == [ws[0]];
      assert ApplyAll(d, [ws[0]]) == Apply(d, ws[0]);
      r' := r;
    }
  }

  /** Any prefix of a line may reach the disk; the file then stands for the
      old log or, once the document is whole, for the longer one. */
  lemma LineCrash(g: Log, events: seq<AgentEvent>, e: AgentEvent, n: nat) returns (r: Rest)
    requires Extends(g, events, e) && n <= |Line(e)|
    ensures Holds(g, r, Image(events) + Line(e)[..n])
    ensures Meaning(r) == if n >= |Document(e)| then events + [e] else events
  {
    hide Storable, DecodeEvent, IsLog;
    ExtendsIsLog(g, events, e);
    DocumentFacts(g, e);
    if n == 0 {
      r := Settled(events);
      assert Image(events) + Line(e)[..0] == Image(events);
    } else if n <= |Document(e)| {
      r := Rest(events, Some(e), n);
      assert Line(e)[..n] == Document(e)[..n];
    } else {
      r := Settled(events + [e]);
      assert Line(e)[..n] == Line(e);
    }
  }

  lemma AssignedExtends(g: Log, events: seq<AgentEvent>, incoming: AgentEvent)
    requires IsLog(g, events) && Storable(g.iso, incoming) && incoming.runId == g.runId
    requires Decide(events, incoming).Assigned?
    ensures Extends(g, events, Decide(events, incoming).e)
  {
    hide Storable;
    Renumbered(g.iso, incoming, |events| + 1);
  }

  /** The events a call adds when it runs to its end. */
  function Added(events: seq<AgentEvent>, call: Call): seq<AgentEvent> {
    if call.Append? && Decide(events, call.incoming).Assigned? then [Decide(events, call.incoming).e] else []
  }

  lemma {:induction false} ApplyConcat(d: Disk, ws: seq<Write>, w: Write)
    ensures ApplyAll(d, ws + [w]) == Apply(ApplyAll(d, ws), w)
    ensures d.backups <= ApplyAll(d, ws).backups
    decreases |ws|
  {
    if ws == [] {
      assert [] + [w] == [w];
    } else {
      assert (ws + [w])[1..] == ws[1..] + [w];
      ApplyConcat(Apply(d, ws[0]), ws[1..], w);
    }
  }

  /** A call that runs to its end leaves exactly the image of the longer log. */
  lemma CallCompletes(g: Log, r: Rest, d: Disk, call: Call)
    requires Holds(g, r, d.log) && Admissible(g, call)
    ensures var events := Meaning(r) + Added(Meaning(r), call);
            var d' := ApplyAll(d, Script(g, d, call));
            d'.log == Image(events) && Holds(g, Settled(events), d'.log) && d.backups <= d'.backups
  {
    hide Storable, DecodeEvent, IsLog, ScanFile, Image, Decide;
    ScanHolds(g, r, d.log);
    RepairSettles(g, r, d);
    var ws := Repair(ScanFile(g, d.log), d.log);
    var events := Meaning(r);
    MeaningIsLog(g, r, d.log);
    ApplyConcat(d, ws, Cut(0));
    if Added(events, call) != [] {
      var e := Decide(events, call.incoming).e;
      AssignedExtends(g, events, call.incoming);
      ExtendsIsLog(g, events, e);
      ApplyConcat(d, ws, Extend(Line(e)));
    } else {
      assert events + [] == events;
    }
  }

  /** Wherever a call stops, the next scan finds the old log or the old log
      with the one new event. */
  lemma CallCrash(g: Log, r: Rest, d: Disk, a: Act) returns (r': Rest)
    requires Holds(g, r, d.log) && Admissible(g, a.call)
    ensures Holds(g, r', Leaves(g, d, a).log)
    ensures Meaning(r') == Meaning(r) || Meaning(r') == Meaning(r) + Added(Meaning(r), a.call)
    ensures a.steps >= |Script(g, d, a.call)| ==> Meaning(r') == Meaning(r) + Added(Meaning(r), a.call)
    ensures d.backups <= Leaves(g, d, a).backups
  {
    hide Storable, DecodeEvent, IsLog, ScanFile, Image, Decide, Holds, Meaning, Line;
    ScanHolds(g, r, d.log);
    var repair := Repair(ScanFile(g, d.log), d.log);
    var ws := Script(g, d, a.call);
    var events := Meaning(r);
    CallCompletes(g, r, d, a.call);
    if a.steps >= |ws| {
      r' := Settled(events + Added(events, a.call));
      SettledMeaning(events + Added(events, a.call));
    } else if a.steps < |repair| {
      assert ws[..a.steps] == repair[..a.steps];
      r' := RepairCrash(g, r, d, a.steps, a.bytes);
    } else {
      r' := AppendCrash(g, r, d, a);
    }
  }

  lemma SettledMeaning(events: seq<AgentEvent>)
    ensures Meaning(Settled(events)) == events
  {
  }

  lemma AppendCrash(g: Log, r: Rest, d: Disk, a: Act) returns (r': Rest)
    requires Holds(g, r, d.log) && Admissible(g, a.call)
    requires |Repair(ScanFile(g, d.log), d.log)| <= a.steps < |Script(g, d, a.call)|
    ensures Holds(g, r', Leaves(g, d, a).log)
    ensures Meaning(r') == Meaning(r) || Meaning(r') == Meaning(r) + Added(Meaning(r), a.call)
    ensures d.backups <= Leaves(g, d, a).backups
  {
    hide Storable, DecodeEvent, IsLog, ScanFile, Image, Decide, Document;
    ScanHolds(g, r, d.log);
    RepairSettles(g, r, d);
    MeaningIsLog(g, r, d.log);
    var repair := Repair(ScanFile(g, d.log), d.log);
    var events := Meaning(r);
    var e := Decide(events, a.call.incoming).e;
    assert Script(g, d, a.call)[..a.steps] == repair;
    AssignedExtends(g, events, a.call.incoming);
    ApplyConcat(d, repair, Cut(0));
    var n := if a.bytes <= |Line(e)| then a.bytes else |Line(e)|;
    assert Line(e)[..|Line(e)|] == Line(e);
    r' := LineCrash(g, events, e, n);
  }

  /** Over every run of appends and reads, each stopped anywhere: the file
      always reads, and the log it stands for only ever grows. */
  lemma {:induction false} LogOnlyGrows(g: Log, d: Disk, acts: seq<Act>)
    requires WellKept(g, d.log)
    requires forall i | 0 <= i < |acts| :: Admissible(g, acts[i].call)
    ensures WellKept(g, RunAll(g, d, acts).log)
    ensures !ScanFile(g, d.log).Corrupt? && !ScanFile(g, RunAll(g, d, acts).log).Corrupt?
    ensures ScanFile(g, d.log).events <= ScanFile(g, RunAll(g, d, acts).log).events
    ensures d.backups <= RunAll(g, d, acts).backups
    decreases |acts|
  {
    hide Holds, ScanFile, Leaves, Admissible, Meaning;
    var r :| Holds(g, r, d.log);
    ScanHolds(g, r, d.log);
    if acts != [] {
      var d1 := Leaves(g, d, acts[0]);
      var r1 := CallCrash(g, r, d, acts[0]);
      ScanHolds(g, r1, d1.log);
      LogOnlyGrows(g, d1, acts[1..]);
    }
  }

  /** An append that was answered stays in the log, at its own number, through
      everything that happens later. */
  lemma AcknowledgedSurvives(g: Log, r: Rest, d: Disk, incoming: AgentEvent, later: seq<Act>)
    returns (end: seq<AgentEvent>)
    requires Holds(g, r, d.log) && Admissible(g, Append(incoming))
    requires forall i | 0 <= i < |later| :: Admissible(g, later[i].call)
    requires !Decide(Meaning(r), incoming).Conflict?
    ensures var s := ScanFile(g, RunAll(g, ApplyAll(d, Script(g, d, Append(incoming))), later).log);
            !s.Corrupt? && s.events == end
    ensures var answer := Decide(Meaning(r), incoming).e;
            1 <= answer.sequence <= |end| && end[answer.sequence - 1] == answer
            && Identity(answer) == Identity(incoming) && answer.eventId == incoming.eventId
  {
    hide Storable, DecodeEvent, IsLog, ScanFile, Image, Decide, Holds, Meaning, Line, Identity, Script, RunAll, ApplyAll;
    MeaningIsLog(g, r, d.log);
    var events := Meaning(r);
    var after := events + Added(events, Append(incoming));
    var d1 := ApplyAll(d, Script(g, d, Append(incoming)));
    CallCompletes(g, r, d, Append(incoming));
    ScanHolds(g, Settled(after), d1.log);
    SettledMeaning(after);
    LogOnlyGrows(g, d1, later);
    AnswerPlaced(g, events, incoming);
    end := ScanFile(g, RunAll(g, d1, later).log).events;
  }

  lemma RenumberedIdentity(iso: IsoTime, e: AgentEvent, n: nat)
    requires Storable(iso, e)
    ensures Identity(e.(sequence := n)) == Identity(e)
  {
    hide Storable, Identity;
    Renumbered(iso, e, n);
    IdentityIsContent(iso, e.(sequence := n), e);
  }

  lemma AnswerPlaced(g: Log, events: seq<AgentEvent>, incoming: AgentEvent)
    requires IsLog(g, events) && Storable(g.iso, incoming) && !Decide(events, incoming).Conflict?
    ensures var answer := Decide(events, incoming).e;
            var after := events + Added(events, Append(incoming));
            1 <= answer.sequence <= |after| && after[answer.sequence - 1] == answer && answer.eventId == incoming.eventId
            && Identity(answer) == Identity(incoming)
  {
    hide Storable, Identity;
    RenumberedIdentity(g.iso, incoming, |events| + 1);
  }

  /** A truncation never loses bytes: what a call takes off the end of the
      file is, whole, in a backup. */
  lemma NothingLost(g: Log, r: Rest, d: Disk, a: Act) returns (kept: nat)
    requires Holds(g, r, d.log) && Admissible(g, a.call)
    ensures kept <= |d.log| && d.log[..kept] <= Leaves(g, d, a).log
    ensures kept == |d.log| || d.log[kept..] in Leaves(g, d, a).backups
  {
    hide Storable, DecodeEvent, IsLog, ScanFile, Image, Decide, Document, Line, Extends;
    ScanHolds(g, r, d.log);
    var repair := Repair(ScanFile(g, d.log), d.log);
    var ws := Script(g, d, a.call);
    var d' := Leaves(g, d, a);
    if r.pending.Some? && r.cut < |Document(r.pending.value)| && a.steps >= 2 {
      var tail := Document(r.pending.value)[..r.cut];
      kept := |Image(r.events)|;
      CutTail(d, Image(r.events), tail);
      assert d.log[..kept] == Image(r.events) && d.log[kept..] == tail;
      assert ws[..2] == repair;
      assert Disk(Image(r.events), d.backups + [tail]).backups[|d.backups|] == tail;
      if |ws| == 3 { ApplyConcat(d, repair, ws[2]); assert ws == repair + [ws[2]]; }
    } else {
      kept := |d.log|;
      assert d.log[..kept] == d.log;
      OnlyGrows(d, ws, a);
    }
  }

  /** Without a truncation the file only gets longer. */
  lemma OnlyGrows(d: Disk, ws: seq<Write>, a: Act)
    requires |ws| <= 3
    requires forall i | 0 <= i < |ws| && i < a.steps :: !ws[i].Cut?
    ensures d.log <= (if a.steps >= |ws| then ApplyAll(d, ws)
                      else Interrupt(ApplyAll(d, ws[..a.steps]), ws[a.steps], a.bytes)).log
  {
    if a.steps >= |ws| {
      Grows(d, ws);
    } else {
      Grows(d, ws[..a.steps]);
    }
  }

  lemma {:induction false} Grows(d: Disk, ws: seq<Write>)
    requires forall i | 0 <= i < |ws| :: !ws[i].Cut?
    ensures d.log <= ApplyAll(d, ws).log
    decreases |ws|
  {
    if ws != [] { Grows(Apply(d, ws[0]), ws[1..]); }
  }

  // ----- any readable file, however it came about -----

  /** The first line of a readable file, and of one that starts like it. */
  lemma FirstLine(g: Log, events: seq<AgentEvent>, bs: Bytes, other: Bytes) returns (e: AgentEvent)
    requires LineEnd(bs) < |bs| && !ScanFrom(g, events, bs).Corrupt?
    requires LineEnd(other) == LineEnd(bs) < |other| && other[..LineEnd(bs)] == bs[..LineEnd(bs)]
    ensures ScanFrom(g, events, bs) == ScanFrom(g, events + [e], bs[LineEnd(bs) + 1..])
    ensures ScanFrom(g, events, other) == ScanFrom(g, events + [e], other[LineEnd(bs) + 1..])
    ensures DecodeEvent(g.iso, bs[..LineEnd(bs)]) == Event(e)
  {
    hide DecodeEvent, HasId, LineEnd;
    e := DecodeEvent(g.iso, bs[..LineEnd(bs)]).e;
  }

  lemma LastPiece(g: Log, events: seq<AgentEvent>, bs: Bytes)
    requires LineEnd(bs) == |bs| && ScanFrom(g, events, bs).Torn?
    ensures ScanFrom(g, events, bs) == Torn(events, bs)
    ensures ScanFrom(g, events, []) == Clean(events)
  {
    hide DecodeEvent, HasId;
  }

  lemma {:induction false} CutKeepsScan(g: Log, events: seq<AgentEvent>, bs: Bytes)
    requires ScanFrom(g, events, bs).Torn?
    ensures var s := ScanFrom(g, events, bs);
            |s.tail| <= |bs| && bs[|bs| - |s.tail|..] == s.tail
            && ScanFrom(g, events, bs[..|bs| - |s.tail|]) == Clean(s.events)
    decreases |bs|
  {
    hide ScanFrom, LineEnd, DecodeEvent;
    var n := LineEnd(bs);
    if n == |bs| {
      LastPiece(g, events, bs);
      assert bs[..0] == [];
    } else {
      var e := FirstLine(g, events, bs, bs);
      CutKeepsScan(g, events + [e], bs[n + 1..]);
      var tail := ScanFrom(g, events, bs).tail;
      var whole := bs[..|bs| - |tail|];
      SuffixPieces(bs, n, tail);
      LineEndPrefix(bs, |bs| - |tail|);
      var e' := FirstLine(g, events, bs, whole);
    }
  }

  lemma SuffixPieces(bs: Bytes, n: nat, tail: Bytes)
    requires n < |bs| && |tail| < |bs| - n && bs[n + 1..][|bs| - n - 1 - |tail|..] == tail
    ensures bs[|bs| - |tail|..] == tail
    ensures bs[..|bs| - |tail|][..n] == bs[..n]
    ensures bs[..|bs| - |tail|][n + 1..] == bs[n + 1..][..|bs| - n - 1 - |tail|]
  {
  }

  lemma LineEndPrefix(bs: Bytes, m: nat)
    requires LineEnd(bs) < m <= |bs|
    ensures LineEnd(bs[..m]) == LineEnd(bs)
  {
    assert forall i | 0 <= i < m :: bs[..m][i] == bs[i];
    LineEndIs(bs[..m], LineEnd(bs));
  }

  lemma LineEndIs(bs: Bytes, n: nat)
    requires n < |bs| && bs[n] == NEWLINE
    requires forall i | 0 <= i < n :: bs[i] != NEWLINE
    ensures LineEnd(bs) == n
  {
  }

  lemma LastDocument(g: Log, events: seq<AgentEvent>, bs: Bytes)
    requires LineEnd(bs) == |bs| && ScanFrom(g, events, bs).Unterminated?
    ensures ScanFrom(g, events, bs + [NEWLINE]) == Clean(ScanFrom(g, events, bs).events)
  {
    hide DecodeEvent, HasId;
    var longer := bs + [NEWLINE];
    assert forall i | 0 <= i < |bs| :: longer[i] == bs[i];
    LineEndIs(longer, |bs|);
    assert longer[..|bs|] == bs && longer[|bs| + 1..] == [];
  }

  lemma {:induction false} EndKeepsScan(g: Log, events: seq<AgentEvent>, bs: Bytes)
    requires ScanFrom(g, events, bs).Unterminated?
    ensures ScanFrom(g, events, bs + [NEWLINE]) == Clean(ScanFrom(g, events, bs).events)
    decreases |bs|
  {
    hide ScanFrom, LineEnd, DecodeEvent;
    var n := LineEnd(bs);
    if n == |bs| {
      LastDocument(g, events, bs);
    } else {
      var longer := bs + [NEWLINE];
      assert forall i | 0 <= i <= n :: longer[i] == bs[i];
      LineEndIs(longer, n);
      assert longer[..n] == bs[..n];
      var e := FirstLine(g, events, bs, longer);
      assert longer[n + 1..] == bs[n + 1..] + [NEWLINE];
      EndKeepsScan(g, events + [e], bs[n + 1..]);
    }
  }

  /** Repairing a file that can be read puts it back on a record boundary with
      the same events, and is not needed a second time. */
  lemma RepairKeepsScan(g: Log, d: Disk)
    requires !ScanFile(g, d.log).Corrupt?
    ensures var s := ScanFile(g, d.log);
            ScanFile(g, ApplyAll(d, Repair(s, d.log)).log) == Clean(s.events)
  {
    hide ScanFrom;
    match ScanFile(g, d.log)
    case Clean(_) =>
    case Torn(_, tail) =>
      CutKeepsScan(g, [], d.log);
      var whole := d.log[..|d.log| - |tail|];
      assert d.log == whole + tail;
      CutTail(d, whole, tail);
    case Unterminated(_) =>
      EndKeepsScan(g, [], d.log);
      assert ApplyAll(d, [Extend([NEWLINE])]) == Apply(d, Extend([NEWLINE]));
  }
}
