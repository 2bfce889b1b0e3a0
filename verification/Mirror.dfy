/** The mirror of a Worker attempt's events into its Execution's log, driven by
    a cursor that is persisted only after a page has been copied. */
module Mirror {
  import opened Utf8
  import opened JsonCodec
  import opened AgentEvents
  import opened EventCodec
  import opened LogScan
  import opened LogCrash
  import opened EventStore

  /** What identifies the attempt and the Execution it is mirrored into. The
      session is not part of it: each observation of the attempt tells its own. */
  datatype Binding = Binding(
    executionId: Text, attemptId: Text, runtimeId: Text, requirementId: Text, taskId: Text)

  const PAGE: nat := 1000

  /** The identity check on every source event. */
  predicate FromAttempt(b: Binding, session: Option<Text>, e: AgentEvent) {
    && e.runId == b.attemptId && e.runtimeId == b.runtimeId
    && e.requirementId == Some(b.requirementId) && e.taskId == Some(b.taskId)
    && e.executionId == None && e.sessionId == session
  }

  /** The copy of an event, before the Execution's log numbers it. */
  function Copy(id: Text, e: AgentEvent): AgentEvent {
    e.(runId := id, executionId := Some(id), sequence := 0)
  }

  /** `dest` is the image of the first |dest| source events: same order, same
      numbers, nothing missing and nothing twice. */
  predicate IsMirror(id: Text, source: seq<AgentEvent>, dest: seq<AgentEvent>) {
    |dest| <= |source| && forall i | 0 <= i < |dest| :: dest[i] == Copy(id, source[i]).(sequence := i + 1)
  }

  /** Copying one source event into the Execution's log. */
  function CopyInto(id: Text, dest: seq<AgentEvent>, e: AgentEvent): seq<AgentEvent> {
    dest + Added(dest, Append(Copy(id, e)))
  }

  lemma SafeText(id: Text)
    requires SafeRunId(id)
    ensures AllScalar(id) && !BlankText(id)
  {
    assert !IsSpaceCode(id[0]);
  }

  lemma CopyStorable(iso: IsoTime, id: Text, e: AgentEvent)
    requires Storable(iso, e) && SafeRunId(id)
    ensures Storable(iso, Copy(id, e))
  {
    hide Name, BlankText, IsKnown, SafeRunId, EncodeEvent, JsonValued;
    SafeText(id);
    var c := Copy(id, e);
    assert JsonValued(c) by { CopyJson(id, e); }
    EncodableEvent(iso, e);
    EncodableEvent(iso, c);
    forall k: Key ensures Scalars(ValueOf(c, k)) { assert Scalars(ValueOf(e, k)); }
  }

  lemma CopyJson(id: Text, e: AgentEvent)
    requires JsonValued(e)
    ensures JsonValued(Copy(id, e))
  {
  }

  /** Copying the event at index `i` of the source: nothing happens when it is
      already mirrored, and the next one extends the mirror by exactly it. */
  lemma CopyStep(g: Log, id: Text, source: seq<AgentEvent>, dest: seq<AgentEvent>, i: nat)
    requires IsLog(g, source) && SafeRunId(id) && IsMirror(id, source, dest)
    requires i <= |dest| && i < |source|
    ensures !Decide(dest, Copy(id, source[i])).Conflict?
    ensures IsMirror(id, source, CopyInto(id, dest, source[i]))
    ensures |CopyInto(id, dest, source[i])| == if i < |dest| then |dest| else |dest| + 1
    ensures dest <= CopyInto(id, dest, source[i])
  {
    hide Storable, Identity, SafeRunId;
    var c := Copy(id, source[i]);
    CopyStorable(g.iso, id, source[i]);
    if i < |dest| {
      FoundFirst(dest, c.eventId, i);
      assert dest[i] == c.(sequence := i + 1);
      RenumberedIdentity(g.iso, c, i + 1);
    } else {
      FoundFirst(dest, c.eventId, i);
    }
  }

  // ----- every run of syncs and crashes -----

  datatype State = State(source: seq<AgentEvent>, dest: seq<AgentEvent>, cursor: int)

  /** The source log grows, or a sync under some session copies the first `n`
      events of its page and stops; only a whole page moves the cursor. */
  datatype Step = Grow(e: AgentEvent) | Sync(session: Option<Text>, n: nat, persisted: bool)

  function CopyN(b: Binding, session: Option<Text>, dest: seq<AgentEvent>, page: seq<AgentEvent>, n: nat): (r: (bool, seq<AgentEvent>))
    decreases n
  {
    if n == 0 || page == [] then (true, dest)
    else if !FromAttempt(b, session, page[0]) || Decide(dest, Copy(b.executionId, page[0])).Conflict? then (false, dest)
    else CopyN(b, session, CopyInto(b.executionId, dest, page[0]), page[1..], n - 1)
  }

  function Next(g: Log, b: Binding, st: State, step: Step): State {
    match step
    case Grow(e) => if Storable(g.iso, e) && ValidRecord(g, st.source, e) then st.(source := st.source + [e]) else st
    case Sync(session, n, persisted) =>
      if st.cursor < 0 then st else
      var page := Page(st.source, st.cursor, PAGE);
      var (ok, dest) := CopyN(b, session, st.dest, page, n);
      var moved := persisted && ok && n >= |page| && page != [];
      State(st.source, dest, if moved then page[|page| - 1].sequence else st.cursor)
  }

  ghost predicate Inv(g: Log, b: Binding, st: State) {
    IsLog(g, st.source) && SafeRunId(b.executionId) && IsMirror(b.executionId, st.source, st.dest)
    && 0 <= st.cursor <= |st.dest|
  }

  /** Copying the events after index `i` keeps the mirror, wherever it stops. */
  lemma {:induction false} CopyKeepsMirror(
    g: Log, b: Binding, session: Option<Text>, source: seq<AgentEvent>, dest: seq<AgentEvent>, page: seq<AgentEvent>, i: nat, n: nat)
    requires IsLog(g, source) && SafeRunId(b.executionId) && IsMirror(b.executionId, source, dest)
    requires i <= |dest| && i + |page| <= |source| && page == source[i..i + |page|]
    ensures var (ok, d) := CopyN(b, session, dest, page, n);
            IsMirror(b.executionId, source, d) && dest <= d && |d| <= (if |dest| > i + |page| then |dest| else i + |page|)
            && (ok && n >= |page| ==> |d| >= i + |page|)
    decreases n
  {
    hide IsLog, SafeRunId, Decide, CopyInto, IsMirror;
    if n > 0 && page != [] && FromAttempt(b, session, page[0]) && !Decide(dest, Copy(b.executionId, page[0])).Conflict? {
      assert page[0] == source[i];
      CopyStep(g, b.executionId, source, dest, i);
      assert page[1..] == source[i + 1..i + 1 + |page[1..]|];
      CopyKeepsMirror(g, b, session, source, CopyInto(b.executionId, dest, page[0]), page[1..], i + 1, n - 1);
    }
  }

  /** Each step keeps the mirror exact and ahead of the cursor. */
  lemma StepKeepsMirror(g: Log, b: Binding, st: State, step: Step)
    requires Inv(g, b, st)
    ensures var st' := Next(g, b, st, step);
            Inv(g, b, st') && st.source <= st'.source && st.dest <= st'.dest && st.cursor <= st'.cursor
  {
    hide Storable, SafeRunId, CopyN;
    match step
    case Grow(e) =>
      if Storable(g.iso, e) && ValidRecord(g, st.source, e) { ExtendsIsLog(g, st.source, e); }
    case Sync(session, n, persisted) =>
      var page := Page(st.source, st.cursor, PAGE);
      CopyKeepsMirror(g, b, session, st.source, st.dest, page, st.cursor, n);
  }

  function Run(g: Log, b: Binding, st: State, steps: seq<Step>): State
    decreases |steps|
  {
    if steps == [] then st else Run(g, b, Next(g, b, st, steps[0]), steps[1..])
  }

  /** Over every run, with a crash allowed anywhere between copying events and
      persisting the cursor, the Execution log is the image of a prefix of the
      attempt log at least as long as the cursor, and neither log loses an
      event. */
  lemma {:induction false} ExactlyOnce(g: Log, b: Binding, st: State, steps: seq<Step>)
    requires Inv(g, b, st)
    ensures var end := Run(g, b, st, steps);
            Inv(g, b, end) && st.source <= end.source && st.dest <= end.dest && st.cursor <= end.cursor
    decreases |steps|
  {
    hide Inv, Next;
    if steps != [] {
      StepKeepsMirror(g, b, st, steps[0]);
      ExactlyOnce(g, b, Next(g, b, st, steps[0]), steps[1..]);
    }
  }

  /** A sync that runs to its end leaves the cursor at min(length, cursor +
      1000), with everything up to it mirrored, exactly when every event of the
      page belongs to the attempt and its session; otherwise it leaves the cursor
      where it was. */
  lemma CompletedSync(g: Log, b: Binding, session: Option<Text>, st: State)
    requires Inv(g, b, st)
    ensures var page := Page(st.source, st.cursor, PAGE);
            var end := Next(g, b, st, Sync(session, PAGE, true));
            && (end.cursor == Min(|st.source|, st.cursor + PAGE) <==> forall e | e in page :: FromAttempt(b, session, e))
            && (end.cursor == Min(|st.source|, st.cursor + PAGE) || end.cursor == st.cursor) && end.cursor <= |end.dest|
  {
    hide Storable, SafeRunId, CopyN, Decide, FromAttempt;
    var page := Page(st.source, st.cursor, PAGE);
    CopyKeepsMirror(g, b, session, st.source, st.dest, page, st.cursor, PAGE);
    CopyNeverConflicts(g, b, session, st.source, st.dest, page, st.cursor, PAGE);
  }

  lemma {:induction false} CopyNeverConflicts(
    g: Log, b: Binding, session: Option<Text>, source: seq<AgentEvent>, dest: seq<AgentEvent>, page: seq<AgentEvent>, i: nat, n: nat)
    requires IsLog(g, source) && SafeRunId(b.executionId) && IsMirror(b.executionId, source, dest)
    requires i <= |dest| && i + |page| <= |source| && page == source[i..i + |page|]
    requires n >= |page|
    ensures CopyN(b, session, dest, page, n).0 <==> forall e | e in page :: FromAttempt(b, session, e)
    decreases n
  {
    hide IsLog, SafeRunId, Decide, CopyInto, IsMirror, FromAttempt;
    if page != [] {
      assert page[0] == source[i];
      CopyStep(g, b.executionId, source, dest, i);
      assert page[1..] == source[i + 1..i + 1 + |page[1..]|];
      assert forall e :: e in page <==> e == page[0] || e in page[1..];
      CopyNeverConflicts(g, b, session, source, CopyInto(b.executionId, dest, page[0]), page[1..], i + 1, n - 1);
    }
  }

  // ----- the sync itself, on the two stores -----

  lemma KeptIsLog(g: Log, log: Bytes) returns (r: Rest)
    requires WellKept(g, log)
    ensures Holds(g, r, log)
    ensures !ScanFile(g, log).Corrupt? && ScanFile(g, log).events == Meaning(r) && IsLog(g, Meaning(r))
  {
    hide Holds, ScanFile, Meaning;
    r :| Holds(g, r, log);
    ScanHolds(g, r, log);
    MeaningIsLog(g, r, log);
  }

  /** A call that ran to its end, seen through the next scan. */
  lemma CallSeen(g: Log, d: Disk, call: Call)
    requires WellKept(g, d.log) && Admissible(g, call)
    ensures var d' := ApplyAll(d, Script(g, d, call));
            WellKept(g, d'.log) && !ScanFile(g, d.log).Corrupt?
            && ScanFile(g, d'.log) == Clean(ScanFile(g, d.log).events + Added(ScanFile(g, d.log).events, call))
  {
    hide Holds, ScanFile, Meaning, Added, Script, ApplyAll, Admissible;
    var r := KeptIsLog(g, d.log);
    CallCompletes(g, r, d, call);
    var after := Settled(Meaning(r) + Added(Meaning(r), call));
    ScanHolds(g, after, ApplyAll(d, Script(g, d, call)).log);
  }

  lemma CopyIncoming(iso: IsoTime, id: Text, e: AgentEvent)
    requires Storable(iso, e) && SafeRunId(id)
    ensures JsonValued(Copy(id, e)) && Incoming(iso, Copy(id, e)) == Some(Copy(id, e))
  {
    hide SafeRunId, Valid, EncodeEvent, DecodeEvent, JsonValued;
    CopyStorable(iso, id, e);
    EventRoundTrip(iso, Copy(id, e));
  }

  /** The Execution's file after the appends of the first n copies. */
  function DiskAfter(g: Log, b: Binding, d: Disk, page: seq<AgentEvent>, n: nat): Disk
    decreases n
  {
    if n == 0 || page == [] then d
    else DiskAfter(g, b, ApplyAll(d, Script(g, d, Append(Copy(b.executionId, page[0])))), page[1..], n - 1)
  }

  /** The file read as a log. */
  ghost predicate Shows(g: Log, log: Bytes, events: seq<AgentEvent>) {
    WellKept(g, log) && !ScanFile(g, log).Corrupt? && ScanFile(g, log).events == events
  }

  lemma CutCall(g: Log, d: Disk, a: Act, events: seq<AgentEvent>)
    requires Shows(g, d.log, events) && Admissible(g, a.call)
    ensures Shows(g, Leaves(g, d, a).log, events) || Shows(g, Leaves(g, d, a).log, events + Added(events, a.call))
  {
    hide Holds, ScanFile, Meaning, Added, Script, Leaves, Admissible;
    var r := KeptIsLog(g, d.log);
    var r' := CallCrash(g, r, d, a);
    ScanHolds(g, r', Leaves(g, d, a).log);
  }

  /** The append of the n-th copy stopped after any of its writes, or inside one
      at any byte: the file shows the log of n or of n + 1 copies. */
  lemma {:induction false} CutCopies(
    gs: Log, gd: Log, b: Binding, session: Option<Text>, source: seq<AgentEvent>, d: Disk, page: seq<AgentEvent>, i: nat,
    n: nat, steps: nat, bytes: nat) returns (m: nat)
    requires gs.iso == gd.iso && gd.runId == b.executionId && IsLog(gs, source) && SafeRunId(b.executionId)
    requires WellKept(gd, d.log) && !ScanFile(gd, d.log).Corrupt? && IsMirror(b.executionId, source, ScanFile(gd, d.log).events)
    requires i <= |ScanFile(gd, d.log).events| && i + |page| <= |source| && page == source[i..i + |page|]
    requires n < |page| && forall j | 0 <= j <= n :: FromAttempt(b, session, page[j])
    ensures m == n || m == n + 1
    ensures var cut := Leaves(gd, DiskAfter(gd, b, d, page, n), Act(Append(Copy(b.executionId, page[n])), steps, bytes));
            Shows(gd, cut.log, CopyN(b, session, ScanFile(gd, d.log).events, page, m).1)
    decreases n
  {
    hide IsLog, SafeRunId, Decide, CopyInto, IsMirror, FromAttempt, Holds, WellKept, ScanFile, Script, Leaves, Storable, Copy;
    var dest := ScanFile(gd, d.log).events;
    var call := Append(Copy(b.executionId, page[0]));
    assert page[0] == source[i] && FromAttempt(b, session, page[0]);
    StoredEvent(gs, source, i);
    CopyAdmissible(gd, b.executionId, source[i]);
    CopyStep(gs, b.executionId, source, dest, i);
    IntoIs(b.executionId, dest, page[0]);
    CopiesOne(b, session, dest, page);
    if n == 0 {
      CutCall(gd, d, Act(call, steps, bytes), dest);
      m := if Shows(gd, Leaves(gd, d, Act(call, steps, bytes)).log, dest) then 0 else 1;
    } else {
      var d1 := ApplyAll(d, Script(gd, d, call));
      CallSeen(gd, d, call);
      assert page[1..] == source[i + 1..i + 1 + |page[1..]|];
      assert forall j | 0 <= j <= n - 1 :: page[1..][j] == page[j + 1];
      m := CutCopies(gs, gd, b, session, source, d1, page[1..], i + 1, n - 1, steps, bytes);
      m := m + 1;
    }
  }

  lemma CopyAdmissible(g: Log, id: Text, e: AgentEvent)
    requires Storable(g.iso, e) && SafeRunId(id) && g.runId == id
    ensures Admissible(g, Append(Copy(id, e)))
  {
    hide Storable, SafeRunId;
    CopyStorable(g.iso, id, e);
  }

  lemma IntoIs(id: Text, dest: seq<AgentEvent>, e: AgentEvent)
    ensures CopyInto(id, dest, e) == dest + Added(dest, Append(Copy(id, e)))
  {
  }

  lemma CopiesOne(b: Binding, session: Option<Text>, dest: seq<AgentEvent>, page: seq<AgentEvent>)
    requires page != [] && FromAttempt(b, session, page[0]) && !Decide(dest, Copy(b.executionId, page[0])).Conflict?
    ensures CopyN(b, session, dest, page, 0) == (true, dest)
    ensures CopyN(b, session, dest, page, 1) == (true, CopyInto(b.executionId, dest, page[0]))
  {
    hide FromAttempt, Decide, CopyInto;
    assert CopyN(b, session, CopyInto(b.executionId, dest, page[0]), page[1..], 0) == (true, CopyInto(b.executionId, dest, page[0]));
  }

  /** A crash inside a sync, at any byte of the Execution's file: what the file
      shows next is what a sync of the machine above leaves that stopped between
      two events. */
  lemma CrashIsSync(
    gs: Log, gd: Log, b: Binding, session: Option<Text>, st: State, d: Disk, n: nat, steps: nat, bytes: nat) returns (m: nat)
    requires gs.iso == gd.iso && gd.runId == b.executionId && Inv(gs, b, st) && Shows(gd, d.log, st.dest)
    requires var page := Page(st.source, st.cursor, PAGE); n < |page| && forall j | 0 <= j <= n :: FromAttempt(b, session, page[j])
    ensures m == n || m == n + 1
    ensures var page := Page(st.source, st.cursor, PAGE);
            var cut := Leaves(gd, DiskAfter(gd, b, d, page, n), Act(Append(Copy(b.executionId, page[n])), steps, bytes));
            Shows(gd, cut.log, Next(gs, b, st, Sync(session, m, false)).dest)
  {
    hide IsLog, SafeRunId, IsMirror, FromAttempt, Holds, WellKept, ScanFile, Script, Leaves, CopyN, Copy;
    var page := Page(st.source, st.cursor, PAGE);
    PageAt(st.source, st.cursor, PAGE);
    m := CutCopies(gs, gd, b, session, st.source, d, page, st.cursor, n, steps, bytes);
  }

  class ExecutionMirror {
    const source: RuntimeEventStore
    const dest: RuntimeEventStore
    /** The Execution's persisted event_cursor. */
    var cursor: int

    constructor (source: RuntimeEventStore, dest: RuntimeEventStore)
      ensures this.source == source && this.dest == dest && cursor == 0
    {
      this.source, this.dest, cursor := source, dest, 0;
    }

    /** The two logs and the cursor, as the machine above sees them. */
    ghost function View(b: Binding): State
      reads this, source, dest
    {
      State(if source.Now(b.attemptId).Corrupt? then [] else source.Now(b.attemptId).events,
            if dest.Now(b.executionId).Corrupt? then [] else dest.Now(b.executionId).events, cursor)
    }

    ghost predicate Ready(b: Binding)
      reads this, source, dest
    {
      && source.iso == dest.iso && (source == dest ==> b.attemptId != b.executionId)
      && SafeRunId(b.attemptId)
      && WellKept(Log(source.iso, b.attemptId), source.DiskOf(b.attemptId).log)
      && WellKept(Log(dest.iso, b.executionId), dest.DiskOf(b.executionId).log)
      && Inv(Log(source.iso, b.attemptId), b, View(b))
    }

    /** The page of source events after the cursor. */
    method ReadPage(b: Binding) returns (page: seq<AgentEvent>)
      requires Ready(b)
      modifies source
      ensures Ready(b) && View(b) == old(View(b)) && page == Page(View(b).source, cursor, PAGE)
    {
      hide Holds, WellKept, ScanFile, Script, SafeRunId, IsLog, IsMirror;
      var g := Log(source.iso, b.attemptId);
      CallSeen(g, source.DiskOf(b.attemptId), Read);
      var replayed := source.Replay(b.attemptId, cursor, PAGE);
      page := replayed.value;
      assert old(View(b)).source + [] == old(View(b)).source;
      assert View(b).source == old(View(b)).source;
    }

    /** One event of the page, the next one not yet mirrored or an earlier one
        again. */
    method CopyOne(b: Binding, i: nat) returns (r: Result<AgentEvent>)
      requires Ready(b) && i < |View(b).source| && i <= |View(b).dest|
      modifies dest
      ensures Ready(b) && r.Ok? && cursor == old(cursor)
      ensures View(b).source == old(View(b)).source
      ensures View(b).dest == CopyInto(b.executionId, old(View(b)).dest, View(b).source[i])
      ensures i < |View(b).dest|
    {
      hide Holds, WellKept, ScanFile, Script, Decide, SafeRunId, Storable, IsLog, IsMirror;
      var gs := Log(source.iso, b.attemptId);
      var gd := Log(dest.iso, b.executionId);
      var e := source.Now(b.attemptId).events[i];
      var copy := Copy(b.executionId, e);
      StoredEvent(gs, View(b).source, i);
      CopyIncoming(dest.iso, b.executionId, e);
      CopyStorable(dest.iso, b.executionId, e);
      CallSeen(gd, dest.DiskOf(b.executionId), Append(copy));
      CopyStep(gs, b.executionId, View(b).source, View(b).dest, i);
      r := dest.Append(copy);
    }

    /** _sync_events: copy one page of the attempt's events; a foreign event
        stops the copy where it stands. */
    method SyncEvents(b: Binding, session: Option<Text>) returns (r: Result<int>)
      requires Ready(b)
      modifies source, dest
      ensures Ready(b)
      ensures var page := Page(old(View(b)).source, cursor, PAGE);
              var (ok, copied) := CopyN(b, session, old(View(b)).dest, page, |page|);
              && View(b) == State(old(View(b)).source, copied, cursor)
              && r == (if !ok then Failed else if page == [] then Ok(cursor) else Ok(page[|page| - 1].sequence))
    {
      hide Holds, WellKept, ScanFile, Script, Decide, SafeRunId, Storable, IsLog, CopyInto, Ready, View, CopyN, FromAttempt, IsMirror, Copy, Page;
      ghost var st := View(b);
      var page := ReadPage(b);
      ReadyFacts(b);
      PageAt(st.source, cursor, PAGE);
      var i := 0;
      while i < |page|
        invariant 0 <= i <= |page| && Ready(b)
        invariant View(b).source == st.source && cursor == st.cursor
        invariant cursor + i <= |View(b).dest|
        invariant CopyN(b, session, st.dest, page, |page|) == CopyN(b, session, View(b).dest, page[i..], |page| - i)
      {
        CopyNext(b, session, View(b).dest, page, i);
        ReadyFacts(b);
        if !FromAttempt(b, session, page[i]) { return Failed; }
        NoConflict(b, cursor + i);
        var appended := CopyOne(b, cursor + i);
        ReadyFacts(b);
        i := i + 1;
      }
      CopyDone(b, session, View(b).dest, page);
      ReadyFacts(b);
      return Ok(if page == [] then cursor else page[|page| - 1].sequence);
    }

    lemma ReadyFacts(b: Binding)
      requires Ready(b)
      ensures 0 <= cursor <= |View(b).dest| <= |View(b).source| && View(b).cursor == cursor
      ensures IsMirror(b.executionId, View(b).source, View(b).dest)
    {
      hide WellKept, SafeRunId, IsLog;
    }

    lemma NoConflict(b: Binding, i: nat)
      requires Ready(b) && i < |View(b).source| && i <= |View(b).dest|
      ensures !Decide(View(b).dest, Copy(b.executionId, View(b).source[i])).Conflict?
    {
      hide IsMirror, WellKept, SafeRunId, IsLog, Decide;
      CopyStep(Log(source.iso, b.attemptId), b.executionId, View(b).source, View(b).dest, i);
    }

    /** _sync: only a page copied to its end moves the persisted cursor. */
    method Sync(b: Binding, session: Option<Text>) returns (r: Result<int>)
      requires Ready(b)
      modifies this, source, dest
      ensures Ready(b)
      ensures View(b) == Next(Log(source.iso, b.attemptId), b, old(View(b)), Step.Sync(session, PAGE, true))
      ensures r.Ok? ==> cursor == r.value
    {
      hide WellKept, SafeRunId, IsLog, CopyN, Inv;
      ghost var st := View(b);
      StepReady(b, session);
      r := SyncEvents(b, session);
      CopyAll(b, session, st.dest, Page(st.source, cursor, PAGE), PAGE);
      if r.Ok? { cursor := r.value; }
    }

    lemma StepReady(b: Binding, session: Option<Text>)
      requires Ready(b)
      ensures Inv(Log(source.iso, b.attemptId), b, Next(Log(source.iso, b.attemptId), b, View(b), Step.Sync(session, PAGE, true)))
      ensures cursor >= 0
    {
      StepKeepsMirror(Log(source.iso, b.attemptId), b, View(b), Step.Sync(session, PAGE, true));
    }
  }

  lemma PageAt(source: seq<AgentEvent>, cursor: nat, limit: nat)
    requires cursor <= |source|
    ensures var page := Page(source, cursor, limit);
            cursor + |page| <= |source| && forall i | 0 <= i < |page| :: page[i] == source[cursor + i]
  {
  }

  lemma CopyNext(b: Binding, session: Option<Text>, dest: seq<AgentEvent>, page: seq<AgentEvent>, i: nat)
    requires i < |page|
    ensures CopyN(b, session, dest, page[i..], |page| - i)
         == if !FromAttempt(b, session, page[i]) || Decide(dest, Copy(b.executionId, page[i])).Conflict? then (false, dest)
            else CopyN(b, session, CopyInto(b.executionId, dest, page[i]), page[i + 1..], |page| - (i + 1))
  {
    hide FromAttempt, Decide, CopyInto;
    assert page[i..][0] == page[i] && page[i..][1..] == page[i + 1..];
  }

  lemma CopyDone(b: Binding, session: Option<Text>, dest: seq<AgentEvent>, page: seq<AgentEvent>)
    ensures CopyN(b, session, dest, page[|page|..], 0) == (true, dest)
  {
  }

  /** Copying more events than there are copies them all. */
  lemma {:induction false} CopyAll(b: Binding, session: Option<Text>, dest: seq<AgentEvent>, page: seq<AgentEvent>, n: nat)
    requires n >= |page|
    ensures CopyN(b, session, dest, page, n) == CopyN(b, session, dest, page, |page|)
    decreases n
  {
    hide FromAttempt, Decide, CopyInto;
    if page != [] { CopyAll(b, session, CopyInto(b.executionId, dest, page[0]), page[1..], n - 1); }
  }

  lemma StoredEvent(g: Log, events: seq<AgentEvent>, i: nat)
    requires IsLog(g, events) && i < |events|
    ensures Storable(g.iso, events[i]) && events[i].sequence == i + 1
  {
    hide Storable;
  }
}
