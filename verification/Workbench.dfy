/** The reply path of the workbench, as the steps it takes. */
module Workbench {
  import opened Utf8
  import opened Strings
  import opened Replies
  import opened ReplyTheorems

  /** The events of one call that nothing interrupts and whose records are all
      written; the last two do nothing unless the message was taken. */
  function Script(k: nat, e: Execution, message: string, command: string, created: bool, runtime: Runtime, error: Option<string>): seq<Event> {
    [Call(e, message, command, created), Consult(k, runtime), Store(k, None), UpdateExecution(k, error), Store(k, None)]
  }

  /** Where such a call leaves its agent. */
  function EndStage(a: Agent, runtime: Runtime, error: Option<string>): Stage {
    var s := AfterRuntime(a, runtime);
    match s
    case Delivered(op) => Returned(if error.None? then op else UnknownFate(a, op, error.value))
    case Failing(op) => Returned(op)
    case Handling(op) => Returned(op)
    case _ => s
  }

  class Service {
    /** Reply records by requirement and command id. */
    var records: map<Key, Record>
    /** The Executions whose runtime this process holds. */
    var runtimes: set<string>
    /** All calls of all services, and all deliveries. */
    ghost var agents: seq<Agent>
    ghost var deliveries: seq<Delivery>

    constructor ()
      ensures View() == EMPTY && runtimes == {}
    {
      records, runtimes, agents, deliveries := map[], {}, [], [];
    }

    ghost function View(): State
      reads this
    {
      State(records, agents, deliveries)
    }

    /** _claim_reply */
    method Claim(e: Execution, message: string, command: string, created: bool) returns (replay: Option<Replay>)
      modifies this`records, this`agents
      ensures View() == Next(old(View()), Call(e, message, command, created))
      ensures replay.Some? ==> View() == old(View())
      ensures replay.None? ==> agents == old(agents) + [Agent(e, message, command, created, Claimed)]
                               && records == Claimant(old(records), Agent(e, message, command, created, Claimed))
      ensures replay.None? <==> IsIdentifier(command) && (e.requirement, command) !in old(records)
      ensures replay.Some? && IsIdentifier(command) ==> replay.value == ReplayOf(records[(e.requirement, command)], e, message)
    {
      if !IsIdentifier(command) { return Some(Reject("command_id")); }
      var key := (e.requirement, command);
      if key in records { return Some(ReplayOf(records[key], e, message)); }
      records := records[key := Record(e.id, message, "delivering", None)];
      agents := agents + [Agent(e, message, command, created, Claimed)];
      return None;
    }

    /** _persist_reply */
    method PersistReply(a: Agent, state: string, op: Operation)
      modifies this`records
      ensures records == Persist(old(records), a, state, op)
    {
      records := records[KeyOf(a) := Record(a.execution.id, a.message, state, Some(op))];
    }

    /** _reply_locked, with what the runtime and the Execution store come to;
        every record is written. */
    method Reply(e: Execution, message: string, command: string, runtime: Runtime, error: Option<string>)
      returns (answer: Replay)
      modifies this
      ensures var created := e.id !in old(runtimes);
              View() == Run(old(View()), Script(|old(agents)|, e, message, command, created, runtime, error))
              || (View() == old(View()) && !(IsIdentifier(command) && (e.requirement, command) !in old(records)))
      ensures IsIdentifier(command) && (e.requirement, command) in old(records) ==>
                answer == ReplayOf(old(records)[(e.requirement, command)], e, message) && View() == old(View())
      ensures IsIdentifier(command) && (e.requirement, command) !in old(records) ==>
                var a := Agent(e, message, command, e.id !in old(runtimes), Claimed);
                && |agents| == |old(agents)| + 1 && agents[|old(agents)|] == a.(stage := EndStage(a, runtime, error))
                && EndStage(a, runtime, error).Returned? && answer == Answer(EndStage(a, runtime, error).operation)
                && runtimes == if AfterRuntime(a, runtime).Delivered? then old(runtimes) + {e.id} else old(runtimes)
    {
      hide AfterRuntime, UnknownFate, Sends, Accepts, ReplayOf, Failed, Run, Script, Next, Persist, WithDelivery;
      var created := e.id !in runtimes;
      ghost var was := View();
      var replay := Claim(e, message, command, created);
      if replay.Some? { return replay.value; }
      var a := Agent(e, message, command, created, Claimed);
      StageFacts(a, runtime);
      ScriptRuns(was, a, runtime, error);
      ghost var claimed := records;
      PersistOverClaim(was.records, a, EndState(AfterRuntime(a, runtime), error), EndStage(a, runtime, error).operation);
      deliveries := WithDelivery(deliveries, a, runtime);
      var stage := AfterRuntime(a, runtime);
      agents := agents[|was.agents| := a.(stage := EndStage(a, runtime, error))];
      if !stage.Delivered? {
        PersistReply(a, "completed", stage.operation);
        return Answer(stage.operation);
      }
      runtimes := runtimes + {e.id};
      PersistReply(a, "delivered", stage.operation);
      if error.Some? {
        var unknown := UnknownFate(a, stage.operation, error.value);
        PersistTwice(claimed, a, "delivered", stage.operation, "delivery_unknown", unknown);
        PersistReply(a, "delivery_unknown", unknown);
        return Answer(unknown);
      }
      PersistTwice(claimed, a, "delivered", stage.operation, "completed", stage.operation);
      PersistReply(a, "completed", stage.operation);
      return Answer(stage.operation);
    }
  }

  lemma ScriptRuns(st: State, a: Agent, runtime: Runtime, error: Option<string>)
    requires a.stage.Claimed? && IsIdentifier(a.command) && KeyOf(a) !in st.records
    ensures var end := Run(st, Script(|st.agents|, a.execution, a.message, a.command, a.created, runtime, error));
            && end.agents == st.agents + [a.(stage := EndStage(a, runtime, error))]
            && end.deliveries == WithDelivery(st.deliveries, a, runtime)
            && EndStage(a, runtime, error).Returned?
            && end.records == Persist(st.records, a, EndState(AfterRuntime(a, runtime), error), EndStage(a, runtime, error).operation)
  {
    hide AfterRuntime, Sends, Accepts, UnknownFate, Failed, Next, Persist;
    StageFacts(a, runtime);
    var k := |st.agents|;
    var events := Script(k, a.execution, a.message, a.command, a.created, runtime, error);
    FiveEvents(st, events[0], events[1], events[2], events[3], events[4]);
    var s2 := Next(Next(st, events[0]), events[1]);
    Opening(st, a, runtime);
    var a2 := a.(stage := AfterRuntime(a, runtime));
    if a2.stage.Delivered? {
      EndingDelivered(s2, k, a2, a, error);
    } else {
      EndingFailed(s2, k, a2, a, error);
    }
    PersistOverClaim(st.records, a, EndState(a2.stage, error), EndStage(a, runtime, error).operation);
  }

  function WithDelivery(ds: seq<Delivery>, a: Agent, runtime: Runtime): seq<Delivery> {
    if !Sends(runtime, a.created) then ds
    else ds + [Delivery(KeyOf(a), a.execution.id, a.message, a.created, Accepts(runtime, a.execution.session))]
  }

  function EndState(s: Stage, error: Option<string>): string {
    if s.Delivered? && error.Some? then "delivery_unknown" else "completed"
  }

  function Claimant(records: map<Key, Record>, a: Agent): map<Key, Record> {
    records[KeyOf(a) := Record(a.execution.id, a.message, "delivering", None)]
  }

  lemma PersistOverClaim(records: map<Key, Record>, a: Agent, state: string, op: Operation)
    ensures Persist(Claimant(records, a), a, state, op) == Persist(records, a, state, op)
  {
  }

  lemma Opening(st: State, a: Agent, runtime: Runtime)
    requires a.stage.Claimed? && IsIdentifier(a.command) && KeyOf(a) !in st.records
    ensures Next(Next(st, Call(a.execution, a.message, a.command, a.created)), Consult(|st.agents|, runtime))
         == State(Claimant(st.records, a), st.agents + [a.(stage := AfterRuntime(a, runtime))], WithDelivery(st.deliveries, a, runtime))
  {
    hide AfterRuntime, Sends, Accepts;
    var s1 := Next(st, Call(a.execution, a.message, a.command, a.created));
    assert s1 == State(Claimant(st.records, a), st.agents + [a], st.deliveries);
    assert (st.agents + [a])[|st.agents| := a.(stage := AfterRuntime(a, runtime))] == st.agents + [a.(stage := AfterRuntime(a, runtime))];
  }

  lemma EndingFailed(st: State, k: nat, a2: Agent, a: Agent, error: Option<string>)
    requires k < |st.agents| && st.agents[k] == a2 && a2 == a.(stage := a2.stage) && (a2.stage.Failing? || a2.stage.Handling?)
    ensures Next(Next(Next(st, Store(k, None)), UpdateExecution(k, error)), Store(k, None))
         == State(Persist(st.records, a, "completed", a2.stage.operation),
                  st.agents[k := a.(stage := Returned(a2.stage.operation))], st.deliveries)
  {
  }

  lemma EndingDelivered(st: State, k: nat, a2: Agent, a: Agent, error: Option<string>)
    requires k < |st.agents| && st.agents[k] == a2 && a2 == a.(stage := a2.stage) && a2.stage.Delivered?
    ensures var op := if error.None? then a2.stage.operation else UnknownFate(a, a2.stage.operation, error.value);
            State(Persist(st.records, a, if error.None? then "completed" else "delivery_unknown", op),
                  st.agents[k := a.(stage := Returned(op))], st.deliveries)
            == Next(Next(Next(st, Store(k, None)), UpdateExecution(k, error)), Store(k, None))
  {
    hide UnknownFate;
    var op := if error.None? then a2.stage.operation else UnknownFate(a, a2.stage.operation, error.value);
    SameFate(a, a2);
    var s1 := Next(st, Store(k, None));
    assert s1.agents == st.agents[k := a.(stage := Noted(a2.stage.operation))];
    var s2 := Next(s1, UpdateExecution(k, error));
    assert s2.records == Persist(st.records, a, "delivered", a2.stage.operation);
    PersistTwice(st.records, a, "delivered", a2.stage.operation, if error.None? then "completed" else "delivery_unknown", op);
  }

  lemma SameFate(a: Agent, a2: Agent)
    requires a2 == a.(stage := a2.stage)
    ensures forall s: Stage, op: Operation, m: string :: UnknownFate(a.(stage := s), op, m) == UnknownFate(a, op, m)
  {
  }

  lemma PersistTwice(records: map<Key, Record>, a: Agent, state: string, op: Operation, state': string, op': Operation)
    ensures Persist(Persist(records, a, state, op), a, state', op') == Persist(records, a, state', op')
  {
  }

  lemma FiveEvents(st: State, a: Event, b: Event, c: Event, d: Event, e: Event)
    ensures Run(st, [a, b, c, d, e]) == Next(Next(Next(Next(Next(st, a), b), c), d), e)
  {
    hide Next;
    FourEvents(Next(st, a), b, c, d, e);
    assert [a, b, c, d, e][1..] == [b, c, d, e];
  }
}
