/** Replying to an Execution: a durable claim is written before the message goes
    to the provider, and its presence forbids sending it again. Calls of
    concurrent services run interleaved and may stop anywhere. */
module Replies {
  import opened Utf8
  import opened Strings

  datatype Value = Text(text: string) | Flag(on: bool)

  datatype Failure = Failure(code: string, message: string)

  datatype Operation = Operation(
    status: string, session: Option<string>, turn: Option<string>, data: map<string, Value>, error: Option<Failure>) {
    predicate Ok() {
      status == "ok"
    }
  }

  /** What identifies an Execution, and the reference to its session. */
  datatype Execution = Execution(id: string, requirement: string, session: string)

  /** A requirement and a command id: the path of a reply's record. */
  type Key = (string, string)

  datatype Record = Record(execution: string, message: string, state: string, operation: Option<Operation>)

  /** One invocation of resume or send_message, and whether the provider took
      the message. */
  datatype Delivery = Delivery(key: Key, execution: string, message: string, resumed: bool, accepted: bool)

  datatype Stage =
    | Claimed
    | Failing(operation: Operation)
    | Delivered(operation: Operation)
    | Noted(operation: Operation)
    | Unknown(operation: Operation)
    | Closing(operation: Operation)
    | Handling(operation: Operation)
    | Returned(operation: Operation)
    | Raised

  /** A call that holds the claim of its key. */
  datatype Agent = Agent(execution: Execution, message: string, command: string, created: bool, stage: Stage)

  datatype State = State(records: map<Key, Record>, agents: seq<Agent>, deliveries: seq<Delivery>)

  datatype Descriptor = Descriptor(available: bool, sameRuntime: bool, resume: bool, messages: bool)

  datatype Sent = Answered(operation: Operation) | Lost(message: string)

  /** What the runtime came to: it could not be asked what it is, or it said so,
      and then what sending to it would come to. */
  datatype Runtime = Broken(message: string) | Described(descriptor: Descriptor, sent: Sent)

  const ALTERNATIVE: string := "请在原生 Agent 中打开该 Session 继续；Workbench 不会新建 Agent。"

  function Failed(session: string, code: string, message: string): Operation {
    Operation("failed", Some(session), None,
              map["continued_original_session" := Flag(false), "alternative" := Text(ALTERNATIVE)], Some(Failure(code, message)))
  }

  function KeyOf(a: Agent): Key {
    (a.execution.requirement, a.command)
  }

  // ----- the claim -----

  /** _claim_reply of a key that has a record: refuse the call, or answer it
      without sending anything. */
  datatype Replay = Reject(reason: string) | Answer(operation: Operation)

  function ReplayOf(r: Record, e: Execution, message: string): Replay {
    if r.execution != e.id || r.message != message then Reject("command_id bound to another reply")
    else if r.operation.None? then Answer(Failed(e.session, "reply_in_progress", "delivery in progress or unknown"))
    else
      var op := r.operation.value;
      if op.session.Some? && op.session.value != e.session then Reject("session mismatch")
      else if op.Ok() && (op.session.None? || op.turn.None? || op.turn.value == "") then Reject("incomplete receipt")
      else Answer(op.(data := op.data["idempotent_replay" := Flag(true)]))
  }

  // ----- after the claim -----

  function Marked(op: Operation, created: bool, continued: bool): Operation {
    var data := op.data["delivery" := Text(if created then "resume" else "send_message")]["continued_original_session" := Flag(continued)];
    op.(data := if continued then data else data["alternative" := Text(ALTERNATIVE)])
  }

  /** The checks on an operation the runtime answered or declined with. */
  function Checked(op: Operation, session: string): Operation {
    if op.session.Some? && op.session.value != session then Failed(session, "identity_mismatch", "")
    else if op.Ok() && (op.session.None? || op.turn.None? || op.turn.value == "") then Failed(session, "identity_mismatch", "")
    else op
  }

  /** The refusals before anything is sent: a status and an error code. */
  function Refusal(d: Descriptor, created: bool): Option<(string, string)> {
    if !d.available then Some(("unavailable", "unsupported"))
    else if !d.sameRuntime then Some(("failed", "identity_mismatch"))
    else if created && !d.resume then Some(("unsupported", "unsupported"))
    else if !d.messages then Some(("unsupported", "unsupported"))
    else None
  }

  predicate Sends(runtime: Runtime, created: bool) {
    runtime.Described? && Refusal(runtime.descriptor, created).None?
  }

  /** Did the provider take the message, as far as its answer tells. */
  predicate Accepts(runtime: Runtime, session: string) {
    runtime.Described? && runtime.sent.Answered? && Checked(runtime.sent.operation, session).Ok()
  }

  function AfterRuntime(a: Agent, runtime: Runtime): Stage {
    match runtime
    case Broken(m) => Handler(a, m)
    case Described(d, sent) =>
      var refusal := Refusal(d, a.created);
      if refusal.Some? then
        Failing(Marked(Failed(a.execution.session, refusal.value.1, "").(status := refusal.value.0), a.created, false))
      else
        match sent
        case Lost(m) => Handler(a, m)
        case Answered(op) =>
          var checked := Checked(op, a.execution.session);
          if checked.Ok() then Delivered(Marked(checked, a.created, true)) else Failing(Marked(checked, a.created, false))
  }

  function Persist(records: map<Key, Record>, a: Agent, state: string, op: Operation): map<Key, Record> {
    records[KeyOf(a) := Record(a.execution.id, a.message, state, Some(op))]
  }

  /** The error handler around everything after the claim. */
  function Handler(a: Agent, m: string): Stage {
    Handling(Failed(a.execution.session, "runtime_reply_failed", m))
  }

  function UnknownFate(a: Agent, op: Operation, m: string): Operation {
    var f := Failed(a.execution.session, "execution_persist_failed", m);
    f.(data := f.data["delivery_accepted" := Flag(true)]["turn_id" := Text(if op.turn.Some? then op.turn.value else "")])
  }

  /** What persisting in a stage writes, and the stage after it. */
  function PersistStep(a: Agent): Option<(string, Operation, Stage)> {
    match a.stage
    case Failing(op) => Some(("completed", op, Returned(op)))
    case Delivered(op) => Some(("delivered", op, Noted(op)))
    case Unknown(op) => Some(("delivery_unknown", op, Returned(op)))
    case Closing(op) => Some(("completed", op, Returned(op)))
    case Handling(op) => Some(("completed", op, Returned(op)))
    case _ => None
  }

  datatype Event =
    | Call(execution: Execution, message: string, command: string, created: bool)
    | Consult(k: nat, runtime: Runtime)
    | Store(k: nat, error: Option<string>)
    | UpdateExecution(k: nat, error: Option<string>)

  function Next(st: State, e: Event): State {
    match e
    case Call(execution, message, command, created) =>
      var a := Agent(execution, message, command, created, Claimed);
      if IsIdentifier(command) && KeyOf(a) !in st.records
      then st.(records := st.records[KeyOf(a) := Record(execution.id, message, "delivering", None)], agents := st.agents + [a])
      else st
    case Consult(k, runtime) =>
      if k < |st.agents| && st.agents[k].stage.Claimed? then
        var a := st.agents[k];
        st.(agents := st.agents[k := a.(stage := AfterRuntime(a, runtime))],
            deliveries := if !Sends(runtime, a.created) then st.deliveries
                          else st.deliveries + [Delivery(KeyOf(a), a.execution.id, a.message, a.created, Accepts(runtime, a.execution.session))])
      else st
    case Store(k, error) =>
      if k < |st.agents| && PersistStep(st.agents[k]).Some? then
        var a := st.agents[k];
        var (state, op, stage) := PersistStep(a).value;
        if error.None? then State(Persist(st.records, a, state, op), st.agents[k := a.(stage := stage)], st.deliveries)
        else st.(agents := st.agents[k := a.(stage := if a.stage.Handling? then Raised else Handler(a, error.value))])
      else st
    case UpdateExecution(k, error) =>
      if k < |st.agents| && st.agents[k].stage.Noted? then
        var a := st.agents[k];
        var op := a.stage.operation;
        st.(agents := st.agents[k := a.(stage := if error.None? then Closing(op) else Unknown(UnknownFate(a, op, error.value)))])
      else st
  }

  function Run(st: State, events: seq<Event>): State
    decreases |events|
  {
    if events == [] then st else Run(Next(st, events[0]), events[1..])
  }

  const EMPTY: State := State(map[], [], [])

  // ----- the invariant -----

  function Count(ds: seq<Delivery>, key: Key): nat {
    if ds == [] then 0 else Count(ds[..|ds| - 1], key) + if ds[|ds| - 1].key == key then 1 else 0
  }

  predicate Bound(st: State, a: Agent) {
    KeyOf(a) in st.records && st.records[KeyOf(a)].execution == a.execution.id && st.records[KeyOf(a)].message == a.message
  }

  ghost predicate Inv(st: State) {
    && (forall i, j | 0 <= i < j < |st.agents| :: KeyOf(st.agents[i]) != KeyOf(st.agents[j]))
    && (forall i | 0 <= i < |st.agents| :: Bound(st, st.agents[i]))
    && (forall i | 0 <= i < |st.agents| && st.agents[i].stage.Claimed? :: Count(st.deliveries, KeyOf(st.agents[i])) == 0)
    && (forall key :: Count(st.deliveries, key) <= 1)
    && (forall d | d in st.deliveries ::
          d.key in st.records && st.records[d.key].execution == d.execution && st.records[d.key].message == d.message)
  }

  lemma CountAppend(ds: seq<Delivery>, d: Delivery, key: Key)
    ensures Count(ds + [d], key) == Count(ds, key) + if d.key == key then 1 else 0
  {
    assert (ds + [d])[..|ds|] == ds;
  }

  lemma {:induction false} NoDelivery(ds: seq<Delivery>, key: Key)
    ensures Count(ds, key) == 0 <==> forall d | d in ds :: d.key != key
    decreases |ds|
  {
    if ds != [] {
      NoDelivery(ds[..|ds| - 1], key);
      assert ds == ds[..|ds| - 1] + [ds[|ds| - 1]];
    }
  }

  lemma CallKeeps(st: State, e: Event)
    requires Inv(st) && e.Call?
    ensures Inv(Next(st, e))
  {
    hide Count;
    var st' := Next(st, e);
    if st' != st {
      var a := st'.agents[|st.agents|];
      NoDelivery(st.deliveries, KeyOf(a));
      forall i | 0 <= i < |st'.agents| ensures Bound(st', st'.agents[i]) {
        if i < |st.agents| { assert Bound(st, st.agents[i]); }
      }
    }
  }

  lemma ConsultKeeps(st: State, e: Event)
    requires Inv(st) && e.Consult?
    ensures Inv(Next(st, e))
  {
    hide Count, AfterRuntime, Accepts, Sends;
    var st' := Next(st, e);
    if st' != st {
      var a := st.agents[e.k];
      assert !AfterRuntime(a, e.runtime).Claimed? by { NotClaimed(a, e.runtime); }
      forall i | 0 <= i < |st'.agents| ensures Bound(st', st'.agents[i]) { assert Bound(st, st.agents[i]); }
      if Sends(e.runtime, a.created) {
        var d := st'.deliveries[|st.deliveries|];
        forall key ensures Count(st'.deliveries, key) <= 1 { CountAppend(st.deliveries, d, key); }
        forall i | 0 <= i < |st'.agents| && st'.agents[i].stage.Claimed?
          ensures Count(st'.deliveries, KeyOf(st'.agents[i])) == 0
        {
          CountAppend(st.deliveries, d, KeyOf(st'.agents[i]));
          assert i != e.k && KeyOf(st.agents[i]) != KeyOf(a);
        }
      }
    }
  }

  lemma NotClaimed(a: Agent, runtime: Runtime)
    ensures !AfterRuntime(a, runtime).Claimed?
  {
    hide Checked, Marked, Failed, Refusal;
  }

  lemma MoveKeeps(st: State, st': State, k: nat, a: Agent)
    requires Inv(st) && k < |st.agents| && !a.stage.Claimed? && a.(stage := st.agents[k].stage) == st.agents[k]
    requires st'.deliveries == st.deliveries && st'.agents == st.agents[k := a]
    requires st'.records == st.records || (KeyOf(a) in st'.records && st'.records == st.records[KeyOf(a) := st'.records[KeyOf(a)]]
                                           && st'.records[KeyOf(a)].execution == a.execution.id && st'.records[KeyOf(a)].message == a.message)
    ensures Inv(st')
  {
    hide Count;
    assert Bound(st, st.agents[k]);
    forall i | 0 <= i < |st'.agents| ensures Bound(st', st'.agents[i]) { assert Bound(st, st.agents[i]); }
  }

  lemma NextKeeps(st: State, e: Event)
    requires Inv(st)
    ensures Inv(Next(st, e))
  {
    hide Inv, Failed, UnknownFate;
    match e {
      case Call(_, _, _, _) => CallKeeps(st, e);
      case Consult(_, _) => ConsultKeeps(st, e);
      case Store(k, _) => if Next(st, e) != st { MoveKeeps(st, Next(st, e), k, Next(st, e).agents[k]); }
      case UpdateExecution(k, _) => if Next(st, e) != st { MoveKeeps(st, Next(st, e), k, Next(st, e).agents[k]); }
    }
  }
}
