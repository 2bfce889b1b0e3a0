/** What a reply comes to: which calls are answered from the record and how, and
    what is stored and answered when the runtime is asked. */
module ReplyMeaning {
  import opened Utf8
  import opened Strings
  import opened Replies
  import opened ReplyTheorems
  import opened Workbench

  const ADVICE: string := "请在原生 Agent 中打开该 Session 继续；Workbench 不会新建 Agent。"

  /** A failure that says what to do instead. */
  predicate Tells(op: Operation, session: string, status: string, code: string, message: string) {
    && op.status == status && op.session == Some(session) && op.turn == None && op.error == Some(Failure(code, message))
    && "alternative" in op.data && op.data["alternative"] == Text(ADVICE)
    && "continued_original_session" in op.data && op.data["continued_original_session"] == Flag(false)
  }

  /** An operation that names its session and its turn. */
  predicate Complete(op: Operation) {
    op.session != None && op.turn != None && op.turn != Some("")
  }

  // ----- a call whose id has a record -----

  /** A repeated call is refused for another Execution or message; answered "in
      progress" as long as no operation is on file; refused when the operation on
      file is of another session, or ok without session and turn; and else
      answered with that operation, marked as a replay. */
  lemma ReplayIs(r: Record, e: Execution, message: string)
    ensures match ReplayOf(r, e, message)
            case Reject(reason) =>
              if (r.execution, r.message) != (e.id, message) then reason == "command_id bound to another reply"
              else
                && r.operation.Some?
                && if r.operation.value.session != None && r.operation.value.session != Some(e.session) then reason == "session mismatch"
                   else r.operation.value.status == "ok" && !Complete(r.operation.value) && reason == "incomplete receipt"
            case Answer(op) =>
              && (r.execution, r.message) == (e.id, message)
              && if r.operation.None? then op.data.Keys == {"alternative", "continued_original_session"}
                                           && Tells(op, e.session, "failed", "reply_in_progress", "delivery in progress or unknown")
                 else
                   var stored := r.operation.value;
                   && (stored.session == None || stored.session == Some(e.session)) && (stored.status == "ok" ==> Complete(stored))
                   && op == Operation(stored.status, stored.session, stored.turn, stored.data["idempotent_replay" := Flag(true)], stored.error)
  {
    if r.operation.None? {
      var op := Failed(e.session, "reply_in_progress", "delivery in progress or unknown");
      assert op.data.Keys == {"alternative", "continued_original_session"};
    }
  }

  // ----- a call that asks the runtime -----

  /** Why the runtime is not sent anything: the status and error of the answer. */
  predicate Declines(d: Descriptor, created: bool, status: string, code: string) {
    || (!d.available && (status, code) == ("unavailable", "unsupported"))
    || (d.available && !d.sameRuntime && (status, code) == ("failed", "identity_mismatch"))
    || (d.available && d.sameRuntime && ((created && !d.resume) || !d.messages) && (status, code) == ("unsupported", "unsupported"))
  }

  predicate Willing(d: Descriptor, created: bool) {
    d.available && d.sameRuntime && (created ==> d.resume) && d.messages
  }

  /** The answer is one that the message was taken: ok, of this session, with a
      turn. */
  predicate Taken(op: Operation, session: string) {
    op.status == "ok" && op.session == Some(session) && Complete(op)
  }

  /** The answer is a failure of this session, or of none. */
  predicate Declined(op: Operation, session: string) {
    op.status != "ok" && (op.session == None || op.session == Some(session))
  }

  function How(created: bool): Value {
    Text(if created then "resume" else "send_message")
  }

  /** What is answered and stored: of a runtime that cannot be asked, or is lost on
      the way, the error; of one that declines, why; of one that answers for
      another session or without a turn, a mismatch; of its own failure, that,
      marked not continued; of a message taken, its answer, marked continued; and
      when the Execution could then not be updated, that the message was taken but
      its fate is unknown. */
  ghost predicate Comes(e: Execution, created: bool, runtime: Runtime, error: Option<string>, op: Operation, state: string) {
    match runtime
    case Broken(m) => Tells(op, e.session, "failed", "runtime_reply_failed", m) && state == "completed"
    case Described(d, sent) =>
      if !Willing(d, created) then
        && (exists status, code :: Declines(d, created, status, code) && Tells(op, e.session, status, code, ""))
        && "delivery" in op.data && op.data["delivery"] == How(created) && state == "completed"
      else
        match sent
        case Lost(m) => Tells(op, e.session, "failed", "runtime_reply_failed", m) && state == "completed"
        case Answered(answer) =>
          if Taken(answer, e.session) then
            if error.None? then
              op == Operation("ok", answer.session, answer.turn,
                              answer.data["delivery" := How(created)]["continued_original_session" := Flag(true)], answer.error)
              && state == "completed"
            else
              && Tells(op, e.session, "failed", "execution_persist_failed", error.value) && state == "delivery_unknown"
              && "delivery_accepted" in op.data && op.data["delivery_accepted"] == Flag(true)
              && "turn_id" in op.data && answer.turn.Some? && op.data["turn_id"] == Text(answer.turn.value)
          else if Declined(answer, e.session) then
            op == Operation(answer.status, answer.session, answer.turn,
                            answer.data["delivery" := How(created)]["continued_original_session" := Flag(false)]["alternative" := Text(ADVICE)],
                            answer.error)
            && state == "completed"
          else
            Tells(op, e.session, "failed", "identity_mismatch", "") && "delivery" in op.data && op.data["delivery"] == How(created)
            && state == "completed"
  }

  lemma RefusalIs(d: Descriptor, created: bool)
    ensures Refusal(d, created).None? <==> Willing(d, created)
    ensures Refusal(d, created).Some? ==> Declines(d, created, Refusal(d, created).value.0, Refusal(d, created).value.1)
  {
  }

  lemma CheckedIs(op: Operation, session: string)
    ensures Checked(op, session) == if Taken(op, session) || Declined(op, session) then op else Failed(session, "identity_mismatch", "")
  {
  }

  /** One call that nothing interrupts, under an id that is free: one message is sent
      exactly when the runtime can be asked and is willing, and exactly one record
      is added, of what the call comes to. */
  lemma ReplyComesTo(st: State, a: Agent, runtime: Runtime, error: Option<string>)
    requires a.stage.Claimed? && IsIdentifier(a.command) && (a.execution.requirement, a.command) !in st.records
    ensures var e, key := a.execution, (a.execution.requirement, a.command);
            var end := Run(st, Script(|st.agents|, e, a.message, a.command, a.created, runtime, error));
            var op := EndStage(a, runtime, error);
            && op.Returned?
            && (exists state :: Comes(e, a.created, runtime, error, op.operation, state)
                                && end.records == st.records[key := Record(e.id, a.message, state, Some(op.operation))])
            && end.deliveries ==
               if runtime.Described? && Willing(runtime.descriptor, a.created) then
                 st.deliveries + [Delivery(key, e.id, a.message, a.created, runtime.sent.Answered? && Taken(runtime.sent.operation, e.session))]
               else st.deliveries
  {
    hide Run, Script;
    ScriptRuns(st, a, runtime, error);
    EndComes(a, runtime, error);
    if runtime.Described? {
      RefusalIs(runtime.descriptor, a.created);
      if runtime.sent.Answered? { CheckedIs(runtime.sent.operation, a.execution.session); }
    }
  }

  lemma EndComes(a: Agent, runtime: Runtime, error: Option<string>)
    ensures EndStage(a, runtime, error).Returned?
    ensures Comes(a.execution, a.created, runtime, error, EndStage(a, runtime, error).operation, EndState(AfterRuntime(a, runtime), error))
  {
    hide Willing, Refusal, Tells, Comes, EndStage, EndState;
    if runtime.Broken? {
      ErrorTells(a, runtime.message);
      BrokenComes(a, runtime, error);
    } else {
      RefusalIs(runtime.descriptor, a.created);
      if !Willing(runtime.descriptor, a.created) {
        DeclinedComes(a, runtime, error);
      } else if runtime.sent.Lost? {
        ErrorTells(a, runtime.sent.message);
        LostComes(a, runtime, error);
      } else {
        AnsweredComes(a, runtime, error);
      }
    }
  }

  lemma ErrorTells(a: Agent, m: string)
    ensures Handler(a, m).Handling? && Tells(Handler(a, m).operation, a.execution.session, "failed", "runtime_reply_failed", m)
  {
  }

  lemma BrokenComes(a: Agent, runtime: Runtime, error: Option<string>)
    requires runtime.Broken? && Tells(Handler(a, runtime.message).operation, a.execution.session, "failed", "runtime_reply_failed", runtime.message)
    ensures EndStage(a, runtime, error).Returned?
    ensures Comes(a.execution, a.created, runtime, error, EndStage(a, runtime, error).operation, EndState(AfterRuntime(a, runtime), error))
  {
    hide Tells, Failed;
  }

  lemma LostComes(a: Agent, runtime: Runtime, error: Option<string>)
    requires runtime.Described? && runtime.sent.Lost? && Willing(runtime.descriptor, a.created) && Refusal(runtime.descriptor, a.created).None?
    requires Tells(Handler(a, runtime.sent.message).operation, a.execution.session, "failed", "runtime_reply_failed", runtime.sent.message)
    ensures EndStage(a, runtime, error).Returned?
    ensures Comes(a.execution, a.created, runtime, error, EndStage(a, runtime, error).operation, EndState(AfterRuntime(a, runtime), error))
  {
    hide Tells, Failed, Willing, Refusal;
  }

  lemma DeclinedComes(a: Agent, runtime: Runtime, error: Option<string>)
    requires runtime.Described? && !Willing(runtime.descriptor, a.created) && Refusal(runtime.descriptor, a.created).Some?
    requires var refusal := Refusal(runtime.descriptor, a.created).value; Declines(runtime.descriptor, a.created, refusal.0, refusal.1)
    ensures EndStage(a, runtime, error).Returned?
    ensures Comes(a.execution, a.created, runtime, error, EndStage(a, runtime, error).operation, EndState(AfterRuntime(a, runtime), error))
  {
    hide Willing, Refusal, Declines;
    var refusal := Refusal(runtime.descriptor, a.created).value;
    assert Tells(EndStage(a, runtime, error).operation, a.execution.session, refusal.0, refusal.1, "");
  }

  lemma AnsweredComes(a: Agent, runtime: Runtime, error: Option<string>)
    requires runtime.Described? && runtime.sent.Answered? && Willing(runtime.descriptor, a.created)
    requires Refusal(runtime.descriptor, a.created).None?
    ensures EndStage(a, runtime, error).Returned?
    ensures Comes(a.execution, a.created, runtime, error, EndStage(a, runtime, error).operation, EndState(AfterRuntime(a, runtime), error))
  {
    hide Willing, Refusal, Checked;
    CheckedIs(runtime.sent.operation, a.execution.session);
  }

  /** A record that cannot be written becomes an error that can be, once; if that
      cannot be written either, the call raises. */
  lemma StoreFails(st: State, k: nat, m: string)
    requires k < |st.agents|
    requires match st.agents[k].stage
             case Failing(_) => true case Delivered(_) => true case Unknown(_) => true case Closing(_) => true case Handling(_) => true
             case _ => false
    ensures var a, st' := st.agents[k], Next(st, Store(k, Some(m)));
            && st'.records == st.records && st'.deliveries == st.deliveries && |st'.agents| == |st.agents|
            && (forall j | 0 <= j < |st.agents| && j != k :: st'.agents[j] == st.agents[j])
            && st'.agents[k] == a.(stage := st'.agents[k].stage)
            && if a.stage.Handling? then st'.agents[k].stage == Raised
               else st'.agents[k].stage.Handling?
                    && Tells(st'.agents[k].stage.operation, a.execution.session, "failed", "runtime_reply_failed", m)
  {
    ErrorTells(st.agents[k], m);
  }
}
