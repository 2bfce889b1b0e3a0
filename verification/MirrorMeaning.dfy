/** What the mirror holds, event by event and field by field, and how far one sync
    gets. */
module MirrorMeaning {
  import opened Utf8
  import opened JsonCodec
  import opened AgentEvents
  import opened EventCodec
  import opened LogScan
  import opened LogCrash
  import opened EventStore
  import opened Mirror

  /** The event as it was, now the n-th of the Execution's own log. */
  predicate ImageOf(id: Text, n: int, e: AgentEvent, image: AgentEvent) {
    && image.eventId == e.eventId && image.runtimeId == e.runtimeId && image.kind == e.kind && image.payload == e.payload
    && image.sessionId == e.sessionId && image.turnId == e.turnId && image.timestamp == e.timestamp
    && image.schemaVersion == e.schemaVersion && image.extra == e.extra
    && image.requirementId == e.requirementId && image.taskId == e.taskId
    && image.runId == id && image.executionId == Some(id) && image.sequence == n
  }

  /** The event is of the attempt: its run, its runtime, its requirement and task,
      no Execution's, and of the session at hand. */
  predicate OfAttempt(b: Binding, session: Option<Text>, e: AgentEvent) {
    && (e.runId, e.runtimeId) == (b.attemptId, b.runtimeId)
    && e.requirementId == Some(b.requirementId) && e.taskId == Some(b.taskId) && e.executionId == None
    && (if session.Some? then e.sessionId.Some? && e.sessionId.value == session.value else e.sessionId.None?)
  }

  lemma MirrorIs(id: Text, source: seq<AgentEvent>, dest: seq<AgentEvent>)
    ensures IsMirror(id, source, dest)
            <==> |dest| <= |source| && forall i | 0 <= i < |dest| :: ImageOf(id, i + 1, source[i], dest[i])
  {
    if |dest| <= |source| {
      forall i | 0 <= i < |dest| ensures dest[i] == Copy(id, source[i]).(sequence := i + 1) <==> ImageOf(id, i + 1, source[i], dest[i]) {}
    }
  }

  /** Over every run of syncs, growth and crashes, each event of the Execution's log
      is the attempt's event of the same number, whole; none is missing before
      the cursor; and an event once mirrored stays as it is. */
  lemma EveryEventIsImage(g: Log, b: Binding, st: State, steps: seq<Step>)
    requires Inv(g, b, st)
    ensures var end := Run(g, b, st, steps);
            && end.cursor <= |end.dest| <= |end.source|
            && (forall i | 0 <= i < |end.dest| :: ImageOf(b.executionId, i + 1, end.source[i], end.dest[i]))
            && |st.dest| <= |end.dest| && (forall i | 0 <= i < |st.dest| :: end.dest[i] == st.dest[i])
  {
    hide Run, IsMirror, IsLog, SafeRunId;
    ExactlyOnce(g, b, st, steps);
    MirrorIs(b.executionId, Run(g, b, st, steps).source, Run(g, b, st, steps).dest);
  }

  /** How many events from the cursor on, of at most n, belong to the attempt. */
  function Leading(b: Binding, session: Option<Text>, source: seq<AgentEvent>, from: nat, n: nat): (k: nat)
    ensures k <= n
    decreases n
  {
    if n == 0 || from >= |source| || !OfAttempt(b, session, source[from]) then 0
    else 1 + Leading(b, session, source, from + 1, n - 1)
  }

  lemma {:induction false} CopyReaches(
    g: Log, b: Binding, session: Option<Text>, source: seq<AgentEvent>, dest: seq<AgentEvent>, page: seq<AgentEvent>, i: nat, n: nat)
    requires IsLog(g, source) && SafeRunId(b.executionId) && IsMirror(b.executionId, source, dest)
    requires i <= |dest| && i + |page| <= |source| && page == source[i..i + |page|] && n <= |page|
    ensures var (ok, d) := CopyN(b, session, dest, page, n);
            var k := Leading(b, session, source, i, n);
            (ok <==> k == n) && |d| == if |dest| < i + k then i + k else |dest|
    decreases n
  {
    hide IsLog, SafeRunId, Decide, CopyInto, IsMirror, OfAttempt, FromAttempt;
    if n > 0 {
      assert page[0] == source[i];
      AttemptIs(b, session, source[i]);
      CopyStep(g, b.executionId, source, dest, i);
      if OfAttempt(b, session, source[i]) {
        assert page[1..] == source[i + 1..i + 1 + |page[1..]|];
        CopyReaches(g, b, session, source, CopyInto(b.executionId, dest, page[0]), page[1..], i + 1, n - 1);
      }
    }
  }

  lemma AttemptIs(b: Binding, session: Option<Text>, e: AgentEvent)
    ensures FromAttempt(b, session, e) <==> OfAttempt(b, session, e)
  {
  }

  /** A sync goes through the next thousand events, as far as they belong to the
      attempt, and mirrors just those; it moves the cursor past them when all of
      them do, and else leaves it. */
  lemma SyncGoesSoFar(g: Log, b: Binding, session: Option<Text>, st: State)
    requires Inv(g, b, st)
    ensures var end := Next(g, b, st, Sync(session, PAGE, true));
            var n := if |st.source| < st.cursor + 1000 then |st.source| - st.cursor else 1000;
            var k := Leading(b, session, st.source, st.cursor, n);
            && end.source == st.source && |end.dest| == (if |st.dest| < st.cursor + k then st.cursor + k else |st.dest|)
            && end.cursor == if k == n then st.cursor + n else st.cursor
  {
    hide Storable, SafeRunId, CopyN, FromAttempt, IsMirror, Leading;
    var page := Page(st.source, st.cursor, PAGE);
    var n := |page|;
    WithinSource(g, b, st);
    PageAt(st.source, st.cursor, PAGE);
    assert page == st.source[st.cursor..st.cursor + n];
    CopyReaches(g, b, session, st.source, st.dest, page, st.cursor, n);
    CopyAll(b, session, st.dest, page, PAGE);
    if n > 0 { NumberedAt(g, st.source, st.cursor + n - 1); }
  }

  lemma WithinSource(g: Log, b: Binding, st: State)
    requires Inv(g, b, st)
    ensures 0 <= st.cursor <= |st.dest| <= |st.source|
  {
    hide IsLog, SafeRunId;
  }

  lemma NumberedAt(g: Log, events: seq<AgentEvent>, i: nat)
    requires IsLog(g, events) && i < |events|
    ensures events[i].sequence == i + 1
  {
    hide Storable;
  }
}
