/** What a reply's caller can rely on, over every run of concurrent services. */
module ReplyTheorems {
  import opened Utf8
  import opened Strings
  import opened Replies

  // ----- at most once -----

  /** Records are never removed, and stay bound to their Execution and message. */
  predicate Keeps(st: State, st': State) {
    forall key | key in st.records ::
      key in st'.records && st'.records[key].execution == st.records[key].execution
      && st'.records[key].message == st.records[key].message
  }

  lemma NextKeepsRecords(st: State, e: Event)
    requires Inv(st)
    ensures Keeps(st, Next(st, e))
  {
    hide Failed, UnknownFate, AfterRuntime, Count;
    if e.Store? && e.k < |st.agents| { assert Bound(st, st.agents[e.k]); }
  }

  lemma {:induction false} RunKeeps(st: State, events: seq<Event>)
    requires Inv(st)
    ensures Inv(Run(st, events)) && Keeps(st, Run(st, events))
    decreases |events|
  {
    hide Inv, Next;
    if events != [] {
      NextKeeps(st, events[0]);
      NextKeepsRecords(st, events[0]);
      RunKeeps(Next(st, events[0]), events[1..]);
    }
  }

  lemma EmptyInv()
    ensures Inv(EMPTY)
  {
  }

  /** For each requirement and command id, over all crashes, retries and
      services, resume and send_message together are invoked at most once, and
      never without a record bound to that Execution and message. */
  lemma ReplyAtMostOnce(events: seq<Event>, key: Key)
    ensures var st := Run(EMPTY, events);
            && Count(st.deliveries, key) <= 1
            && forall d | d in st.deliveries && d.key == key ::
                 key in st.records && st.records[key].execution == d.execution && st.records[key].message == d.message
  {
    hide Run, Count;
    EmptyInv();
    RunKeeps(EMPTY, events);
  }

  /** A command id used once is refused for any other Execution or message, for
      good, and the refused call changes nothing. */
  lemma ReuseRejected(before: seq<Event>, after: seq<Event>, key: Key, e: Execution, message: string, created: bool)
    requires key in Run(EMPTY, before).records && e.requirement == key.0
    requires e.id != Run(EMPTY, before).records[key].execution || message != Run(EMPTY, before).records[key].message
    ensures var st := Run(Run(EMPTY, before), after);
            key in st.records && ReplayOf(st.records[key], e, message).Reject?
            && Next(st, Call(e, message, key.1, created)) == st
  {
    hide Run, Inv;
    EmptyInv();
    RunKeeps(EMPTY, before);
    RunKeeps(Run(EMPTY, before), after);
    assert KeyOf(Agent(e, message, key.1, created, Claimed)) == key;
  }

  /** The events but the calls under one key. */
  function Without(events: seq<Event>, key: Key): seq<Event>
    decreases |events|
  {
    if events == [] then []
    else
      var rest := Without(events[1..], key);
      var e := events[0];
      if e.Call? && (e.execution.requirement, e.command) == key then rest else [e] + rest
  }

  /** Once a key has its record, every further call under it is without effect: a
      run comes to the same, with the same messages sent, as the run without
      those calls, whatever else happens in between. */
  lemma {:induction false} RepeatsAreInvisible(st: State, events: seq<Event>, key: Key)
    requires key in st.records
    ensures Run(st, Without(events, key)) == Run(st, events)
    decreases |events|
  {
    hide Next;
    if events != [] {
      var e := events[0];
      RecordStays(st, e, key);
      RepeatsAreInvisible(Next(st, e), events[1..], key);
      if !(e.Call? && (e.execution.requirement, e.command) == key) {
        assert Without(events, key)[1..] == Without(events[1..], key);
      }
    }
  }

  lemma RecordStays(st: State, e: Event, key: Key)
    requires key in st.records
    ensures key in Next(st, e).records
    ensures e.Call? && (e.execution.requirement, e.command) == key ==> Next(st, e) == st
  {
    hide AfterRuntime, Accepts, Sends, Failed, UnknownFate;
  }

  // ----- what the answers say -----

  predicate Took(ds: seq<Delivery>, key: Key) {
    exists d | d in ds :: d.key == key && d.accepted
  }

  /** The stage says the provider took the message. */
  predicate Claims(s: Stage) {
    match s
    case Claimed => false
    case Raised => false
    case Delivered(_) => true
    case Noted(_) => true
    case Unknown(_) => true
    case Closing(_) => true
    case Failing(op) => op.Ok()
    case Handling(op) => op.Ok()
    case Returned(op) => op.Ok()
  }

  ghost predicate Truthful(st: State) {
    && (forall i | 0 <= i < |st.agents| && Claims(st.agents[i].stage) :: Took(st.deliveries, KeyOf(st.agents[i])))
    && (forall key | key in st.records && st.records[key].operation.Some? && st.records[key].operation.value.Ok() :: Took(st.deliveries, key))
  }

  lemma TookStays(ds: seq<Delivery>, ds': seq<Delivery>, key: Key)
    requires Took(ds, key) && ds <= ds'
    ensures Took(ds', key)
  {
    var d :| d in ds && d.key == key && d.accepted;
    assert d in ds';
  }

  lemma RuntimeClaims(a: Agent, runtime: Runtime)
    requires Claims(AfterRuntime(a, runtime))
    ensures Sends(runtime, a.created) && Accepts(runtime, a.execution.session)
  {
  }

  lemma NextTruthful(st: State, e: Event)
    requires Inv(st) && Truthful(st)
    ensures Truthful(Next(st, e))
  {
    hide Inv, AfterRuntime, Accepts, Sends, Took;
    var st' := Next(st, e);
    forall key | Took(st.deliveries, key) ensures Took(st'.deliveries, key) {
      TookStays(st.deliveries, st'.deliveries, key);
    }
    if e.Consult? && e.k < |st.agents| && st.agents[e.k].stage.Claimed? && Claims(AfterRuntime(st.agents[e.k], e.runtime)) {
      RuntimeClaims(st.agents[e.k], e.runtime);
      Accepted(st, st', e);
    }
  }

  lemma Accepted(st: State, st': State, e: Event)
    requires e.Consult? && e.k < |st.agents| && st.agents[e.k].stage.Claimed? && st' == Next(st, e)
    requires Sends(e.runtime, st.agents[e.k].created) && Accepts(e.runtime, st.agents[e.k].execution.session)
    ensures Took(st'.deliveries, KeyOf(st.agents[e.k]))
  {
    assert st'.deliveries[|st.deliveries|].accepted;
  }

  lemma {:induction false} RunTruthful(st: State, events: seq<Event>)
    requires Inv(st) && Truthful(st)
    ensures Truthful(Run(st, events))
    decreases |events|
  {
    hide Inv, Next, Truthful;
    if events != [] {
      NextKeeps(st, events[0]);
      NextTruthful(st, events[0]);
      RunTruthful(Next(st, events[0]), events[1..]);
    }
  }

  /** A replay that says the reply went through is true: that message was taken
      for that Execution, by the one delivery under the key. */
  lemma ReplayIsTrue(events: seq<Event>, key: Key, e: Execution, message: string)
    requires key in Run(EMPTY, events).records
    requires ReplayOf(Run(EMPTY, events).records[key], e, message).Answer?
    requires ReplayOf(Run(EMPTY, events).records[key], e, message).operation.Ok()
    ensures var st := Run(EMPTY, events);
            Count(st.deliveries, key) == 1
            && exists d | d in st.deliveries :: d.key == key && d.accepted && d.execution == e.id && d.message == message
  {
    hide Run, Count;
    EmptyInv();
    RunKeeps(EMPTY, events);
    RunTruthful(EMPTY, events);
    var st := Run(EMPTY, events);
    assert Took(st.deliveries, key);
    var d :| d in st.deliveries && d.key == key && d.accepted;
    NoDelivery(st.deliveries, key);
  }

  // ----- what a stored failure says -----

  /** Stages and records know what the provider did. */
  predicate Knows(st: State, a: Agent) {
    match a.stage
    case Claimed => KeyOf(a) in st.records && st.records[KeyOf(a)].operation.None?
    case Failing(op) => !op.Ok() && !Took(st.deliveries, KeyOf(a))
    case Handling(op) => !op.Ok() && !Took(st.deliveries, KeyOf(a))
    case Delivered(op) => op.Ok() && Took(st.deliveries, KeyOf(a))
    case Noted(op) => op.Ok() && Took(st.deliveries, KeyOf(a))
    case Closing(op) => op.Ok() && Took(st.deliveries, KeyOf(a))
    case Unknown(op) => !op.Ok() && Took(st.deliveries, KeyOf(a))
    case Returned(_) => true
    case Raised => true
  }

  predicate RecordKnows(st: State, key: Key)
    requires key in st.records
  {
    var r := st.records[key];
    r.operation.Some? ==>
      if r.state == "delivery_unknown" then !r.operation.value.Ok() && Took(st.deliveries, key)
      else r.operation.value.Ok() <==> Took(st.deliveries, key)
  }

  ghost predicate Honest(st: State, key: Key) {
    && (forall i | 0 <= i < |st.agents| && KeyOf(st.agents[i]) == key :: Knows(st, st.agents[i]))
    && (key in st.records ==> RecordKnows(st, key))
  }

  predicate IsAgentOf(st: State, k: nat, key: Key) {
    k < |st.agents| && KeyOf(st.agents[k]) == key
  }

  /** The message was taken, and the record that says so could not be written. */
  predicate LosesNote(st: State, e: Event, key: Key) {
    && e.Store? && e.error.Some? && IsAgentOf(st, e.k, key)
    && var stage := st.agents[e.k].stage; (stage.Delivered? || stage.Closing? || stage.Unknown?)
  }

  /** The error handler's own record is written. */
  predicate WritesFailure(st: State, e: Event, key: Key) {
    e.Store? && e.error.None? && IsAgentOf(st, e.k, key) && st.agents[e.k].stage.Handling?
  }

  predicate FailureWritten(st: State, events: seq<Event>, key: Key)
    decreases |events|
  {
    events != [] && (WritesFailure(st, events[0], key) || FailureWritten(Next(st, events[0]), events[1..], key))
  }

  /** At some point of the run a note of the delivery is lost, and at a later one
      the handler's record is written. */
  predicate NoteReplaced(st: State, events: seq<Event>, key: Key)
    decreases |events|
  {
    && events != []
    && var next := Next(st, events[0]);
       || (LosesNote(st, events[0], key) && FailureWritten(next, events[1..], key))
       || NoteReplaced(next, events[1..], key)
  }

  lemma TookSame(ds: seq<Delivery>, ds': seq<Delivery>, key: Key)
    requires ds <= ds' && forall i | |ds| <= i < |ds'| :: ds'[i].key != key
    ensures Took(ds', key) == Took(ds, key)
  {
    if Took(ds, key) { TookStays(ds, ds', key); }
    if Took(ds', key) {
      var d :| d in ds' && d.key == key && d.accepted;
      var i :| 0 <= i < |ds'| && ds'[i] == d;
      assert ds[i] == d;
    }
  }

  lemma ConsultKnows(st: State, e: Event)
    requires Inv(st) && e.Consult? && e.k < |st.agents| && st.agents[e.k].stage.Claimed?
    ensures Knows(Next(st, e), Next(st, e).agents[e.k])
  {
    hide Count, Failed, Marked, Checked;
    var a := st.agents[e.k];
    NoDelivery(st.deliveries, KeyOf(a));
    var st' := Next(st, e);
    if Sends(e.runtime, a.created) {
      var d := st'.deliveries[|st.deliveries|];
      assert Took(st'.deliveries, KeyOf(a)) <==> d.accepted;
    } else {
      assert st'.deliveries == st.deliveries;
    }
    StageFacts(a, e.runtime);
  }

  /** What the stage after the runtime says. */
  lemma StageFacts(a: Agent, runtime: Runtime)
    ensures var s := AfterRuntime(a, runtime);
            && (s.Delivered? || s.Failing? || s.Handling?)
            && s.operation.Ok() == s.Delivered?
            && (s.Delivered? <==> Sends(runtime, a.created) && Accepts(runtime, a.execution.session))
  {
  }

  predicate Touches(st: State, e: Event, key: Key) {
    match e
    case Call(execution, _, command, _) => (execution.requirement, command) == key
    case Consult(k, _) => IsAgentOf(st, k, key)
    case Store(k, _) => IsAgentOf(st, k, key)
    case UpdateExecution(k, _) => IsAgentOf(st, k, key)
  }

  /** What happens under other keys changes nothing under this one. */
  lemma OthersAside(st: State, e: Event, key: Key)
    requires !Touches(st, e, key)
    ensures var st' := Next(st, e);
            && (key in st'.records <==> key in st.records) && (key in st.records ==> st'.records[key] == st.records[key])
            && Took(st'.deliveries, key) == Took(st.deliveries, key)
            && (forall i | 0 <= i < |st.agents| && KeyOf(st.agents[i]) == key :: i < |st'.agents| && st'.agents[i] == st.agents[i])
            && (forall i | 0 <= i < |st'.agents| && KeyOf(st'.agents[i]) == key :: i < |st.agents| && st'.agents[i] == st.agents[i])
  {
    hide AfterRuntime, Accepts, Sends, Took, Failed, UnknownFate;
    TookSame(st.deliveries, Next(st, e).deliveries, key);
  }

  lemma OthersHonest(st: State, e: Event, key: Key)
    requires Honest(st, key) && !Touches(st, e, key)
    ensures Honest(Next(st, e), key)
  {
    hide Took, Next;
    OthersAside(st, e, key);
    var st' := Next(st, e);
    forall i | 0 <= i < |st'.agents| && KeyOf(st'.agents[i]) == key ensures Knows(st', st'.agents[i]) {
      assert Knows(st, st.agents[i]);
    }
  }

  /** The one agent of a key. */
  lemma OneAgent(st: State, key: Key, i: nat, j: nat)
    requires Inv(st) && IsAgentOf(st, i, key) && IsAgentOf(st, j, key)
    ensures i == j && key in st.records
  {
    assert Bound(st, st.agents[i]);
  }

  /** An event that concerns one agent. */
  lemma OwnHonest(st: State, e: Event, key: Key, k: nat)
    requires Inv(st) && Honest(st, key) && !LosesNote(st, e, key) && !e.Call? && e.k == k && IsAgentOf(st, k, key)
    ensures Honest(Next(st, e), key)
  {
    hide Inv, Took, AfterRuntime, Accepts, Sends, Failed, UnknownFate, Next;
    var st' := Next(st, e);
    assert Knows(st, st.agents[k]);
    OneAgent(st, key, k, k);
    AgentMoves(st, e, key, k);
    OwnKnows(st, e, key, k);
    forall i | 0 <= i < |st'.agents| && KeyOf(st'.agents[i]) == key ensures Knows(st', st'.agents[i]) {
      OneAgent(st, key, i, k);
    }
  }

  lemma AgentMoves(st: State, e: Event, key: Key, k: nat)
    requires !e.Call? && e.k == k && k < |st.agents|
    ensures var st' := Next(st, e);
            |st'.agents| == |st.agents| && (forall i | 0 <= i < |st.agents| :: KeyOf(st'.agents[i]) == KeyOf(st.agents[i]))
  {
    hide AfterRuntime, Accepts, Sends, Failed, UnknownFate;
  }

  lemma OwnKnows(st: State, e: Event, key: Key, k: nat)
    requires Inv(st) && !LosesNote(st, e, key) && !e.Call? && e.k == k && IsAgentOf(st, k, key) && key in st.records
    requires Knows(st, st.agents[k]) && RecordKnows(st, key)
    ensures var st' := Next(st, e); k < |st'.agents| && Knows(st', st'.agents[k]) && key in st'.records && RecordKnows(st', key)
  {
    if e.Consult? {
      if st.agents[k].stage.Claimed? {
        hide Inv, Took, AfterRuntime, Accepts, Sends, Failed, UnknownFate;
        ConsultKnows(st, e);
      }
    } else {
      hide Inv, Took;
    }
  }

  lemma CallHonest(st: State, e: Event, key: Key)
    requires Inv(st) && Honest(st, key) && e.Call? && Touches(st, e, key)
    ensures Honest(Next(st, e), key)
  {
    hide Took, Count;
    if key !in st.records { NoAgent(st, key); }
  }

  lemma NoAgent(st: State, key: Key)
    requires Inv(st) && key !in st.records
    ensures forall i | 0 <= i < |st.agents| :: KeyOf(st.agents[i]) != key
  {
    hide Count;
    forall i | 0 <= i < |st.agents| ensures KeyOf(st.agents[i]) != key { assert Bound(st, st.agents[i]); }
  }

  lemma HonestStep(st: State, e: Event, key: Key)
    requires Inv(st) && Honest(st, key) && !LosesNote(st, e, key)
    ensures Honest(Next(st, e), key)
  {
    hide Inv, Honest, Next, LosesNote;
    if !Touches(st, e, key) {
      OthersHonest(st, e, key);
    } else if e.Call? {
      CallHonest(st, e, key);
    } else {
      OwnHonest(st, e, key, e.k);
    }
  }

  /** A lost note: the message was taken, the handler's failure is about to be
      written, and the record on file is still right. */
  predicate Damaged(st: State, key: Key, k: nat) {
    && IsAgentOf(st, k, key) && st.agents[k].stage.Handling? && !st.agents[k].stage.operation.Ok()
    && Took(st.deliveries, key) && key in st.records && RecordKnows(st, key)
  }

  /** The operation on file is neither ok nor of unknown fate although the message
      was taken, or one of the two although it was not. */
  predicate Misreports(st: State, key: Key) {
    && key in st.records && st.records[key].operation.Some?
    && !(Took(st.deliveries, key) <==> st.records[key].operation.value.Ok() || st.records[key].state == "delivery_unknown")
  }

  predicate Ended(st: State, key: Key, k: nat) {
    IsAgentOf(st, k, key) && (st.agents[k].stage.Returned? || st.agents[k].stage.Raised?)
  }

  lemma LossDamages(st: State, e: Event, key: Key) returns (k: nat)
    requires Inv(st) && Honest(st, key) && LosesNote(st, e, key)
    ensures Damaged(Next(st, e), key, k)
  {
    hide Inv, Took;
    k := e.k;
    OneAgent(st, key, e.k, e.k);
    assert Knows(st, st.agents[e.k]);
  }

  /** What a damaged reply can come to next. */
  lemma DamagedStep(st: State, e: Event, key: Key, k: nat)
    requires Inv(st) && Damaged(st, key, k)
    ensures var st' := Next(st, e);
            if WritesFailure(st, e, key) then Ended(st', key, k) && Misreports(st', key)
            else Damaged(st', key, k) || (Ended(st', key, k) && key in st'.records && RecordKnows(st', key))
  {
    hide Inv, Took;
    if !Touches(st, e, key) {
      OthersAside(st, e, key);
    } else if !e.Call? {
      OneAgent(st, key, k, e.k);
    }
  }

  /** A call that is over leaves its record and its messages as they are. */
  lemma EndedStays(st: State, e: Event, key: Key, k: nat)
    requires Inv(st) && Ended(st, key, k)
    ensures var st' := Next(st, e);
            && Ended(st', key, k) && !WritesFailure(st, e, key) && !LosesNote(st, e, key)
            && key in st.records && key in st'.records && st'.records[key] == st.records[key]
            && Took(st'.deliveries, key) == Took(st.deliveries, key)
  {
    hide Inv, Took;
    OneAgent(st, key, k, k);
    if !Touches(st, e, key) {
      OthersAside(st, e, key);
    } else if !e.Call? {
      OneAgent(st, key, k, e.k);
    }
  }

  lemma {:induction false} EndedRun(st: State, events: seq<Event>, key: Key, k: nat)
    requires Inv(st) && Ended(st, key, k)
    ensures !FailureWritten(st, events, key) && !NoteReplaced(st, events, key)
    ensures Misreports(Run(st, events), key) <==> Misreports(st, key)
    decreases |events|
  {
    hide Inv, Next, Ended, LosesNote, WritesFailure;
    if events != [] {
      EndedStays(st, events[0], key, k);
      NextKeeps(st, events[0]);
      EndedRun(Next(st, events[0]), events[1..], key, k);
    }
  }

  lemma {:induction false} DamagedRun(st: State, events: seq<Event>, key: Key, k: nat)
    requires Inv(st) && Damaged(st, key, k)
    ensures Misreports(Run(st, events), key) <==> FailureWritten(st, events, key)
    ensures !NoteReplaced(st, events, key)
    decreases |events|
  {
    hide Inv, Next, Ended, Damaged, LosesNote, WritesFailure, Misreports, RecordKnows;
    if events == [] {
      DamagedIsRight(st, key, k);
    } else {
      var st' := Next(st, events[0]);
      NextKeeps(st, events[0]);
      DamagedStep(st, events[0], key, k);
      DamagedLosesNothing(st, events[0], key, k);
      if Ended(st', key, k) {
        EndedRun(st', events[1..], key, k);
        if !WritesFailure(st, events[0], key) && !Damaged(st', key, k) { KnownIsRight(st', key); }
        if Damaged(st', key, k) { DamagedIsRight(st', key, k); }
      } else {
        DamagedRun(st', events[1..], key, k);
      }
    }
  }

  lemma DamagedIsRight(st: State, key: Key, k: nat)
    requires Damaged(st, key, k)
    ensures !Misreports(st, key)
  {
    hide Took;
  }

  lemma KnownIsRight(st: State, key: Key)
    requires key in st.records && RecordKnows(st, key)
    ensures !Misreports(st, key)
  {
    hide Took;
  }

  lemma DamagedLosesNothing(st: State, e: Event, key: Key, k: nat)
    requires Inv(st) && Damaged(st, key, k)
    ensures !LosesNote(st, e, key)
  {
    hide Inv, Took, RecordKnows;
    if e.Store? && IsAgentOf(st, e.k, key) { OneAgent(st, key, k, e.k); }
  }

  lemma {:induction false} HonestRun(st: State, events: seq<Event>, key: Key)
    requires Inv(st) && Honest(st, key)
    ensures Misreports(Run(st, events), key) <==> NoteReplaced(st, events, key)
    decreases |events|
  {
    hide Inv, Next, Damaged, LosesNote, WritesFailure, Misreports, Honest;
    if events == [] {
      HonestIsRight(st, key);
    } else {
      var e := events[0];
      NextKeeps(st, e);
      if LosesNote(st, e, key) {
        var k := LossDamages(st, e, key);
        DamagedRun(Next(st, e), events[1..], key, k);
      } else {
        HonestStep(st, e, key);
        HonestRun(Next(st, e), events[1..], key);
      }
    }
  }

  lemma HonestIsRight(st: State, key: Key)
    requires Honest(st, key)
    ensures !Misreports(st, key)
  {
    hide Took;
  }

  /** Over every run, an operation on file tells exactly whether the provider took
      the message, by being ok or of unknown fate, unless the note of this very
      delivery was lost and the error handler's record was written after it. What
      fails to be written under other keys, or of a message not taken, does not
      matter. */
  lemma StoredOperationTells(events: seq<Event>, key: Key)
    requires key in Run(EMPTY, events).records && Run(EMPTY, events).records[key].operation.Some?
    ensures var r := Run(EMPTY, events).records[key];
            (Took(Run(EMPTY, events).deliveries, key) <==> (r.operation.value.Ok() || r.state == "delivery_unknown"))
            <==> !NoteReplaced(EMPTY, events, key)
  {
    hide Run, Took, NoteReplaced;
    EmptyInv();
    HonestRun(EMPTY, events, key);
  }

  /** A record that could not be written breaks that: the message was taken, the
      note of it failed, and what the caller finds on file is a failure. */
  lemma FailureAfterDelivery(e: Execution, op: Operation)
    requires op.Ok() && op.session == Some(e.session) && op.turn.Some? && op.turn.value != ""
    ensures var events := [Call(e, "m", "c", true), Consult(0, Described(Descriptor(true, true, true, true), Answered(op))),
                           Store(0, Some("disk full")), Store(0, None)];
            var st := Run(EMPTY, events);
            var key := (e.requirement, "c");
            && Took(st.deliveries, key) && key in st.records && st.records[key].state == "completed"
            && st.records[key].operation == Some(Failed(e.session, "runtime_reply_failed", "disk full"))
  {
    var events := [Call(e, "m", "c", true), Consult(0, Described(Descriptor(true, true, true, true), Answered(op))),
                   Store(0, Some("disk full")), Store(0, None)];
    var s1 := Next(EMPTY, events[0]);
    var s2 := Next(s1, events[1]);
    var s3 := Next(s2, events[2]);
    var s4 := Next(s3, events[3]);
    FourEvents(EMPTY, events[0], events[1], events[2], events[3]);
    assert s2.deliveries[0].accepted;
  }

  lemma FourEvents(st: State, a: Event, b: Event, c: Event, d: Event)
    ensures Run(st, [a, b, c, d]) == Next(Next(Next(Next(st, a), b), c), d)
  {
    hide Next;
    var s3 := Next(Next(Next(st, a), b), c);
    assert [a, b, c, d][1..] == [b, c, d] && [b, c, d][1..] == [c, d] && [c, d][1..] == [d] && [d][1..] == [];
    assert Run(s3, [d]) == Next(s3, d);
    assert Run(Next(Next(st, a), b), [c, d]) == Next(s3, d);
  }
}
