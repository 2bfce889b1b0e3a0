/** The queue file as an object: each method holds the file's lock, and retry
    takes it twice. */
module CommandQueues {
  import opened Utf8
  import opened Strings
  import opened CommandQueue

  const RECOVERED: string := "控制服务重启，投递结果未知；请核对 Agent 状态后显式重试"

  class Queue {
    var rows: seq<Command>
    const limit: nat

    constructor (limit: nat)
      ensures rows == [] && this.limit == limit
    {
      rows, this.limit := [], limit;
    }

    method Find(id: string) returns (i: nat)
      ensures i == IndexOf(rows, id)
    {
      i := 0;
      while i < |rows|
        invariant i <= |rows| && forall j | 0 <= j < i :: rows[j].id != id
      {
        if rows[i].id == id {
          IndexIs(rows, id, i);
          return;
        }
        i := i + 1;
      }
      NotThere(rows, id);
    }

    method Enqueue(m: Message, id: string, made: string, now: string) returns (command: Option<Command>)
      modifies this
      ensures Answer(rows, command) == CommandQueue.Enqueue(old(rows), limit, m, Named(id, made), now)
    {
      var identifier := Named(id, made);
      if !NoneBlank([m.requirement, m.session, m.text]) || |m.text| > limit || !IsIdentifier(identifier) { return None; }
      var i := Find(identifier);
      if i < |rows| { return if SameMessage(rows[i], m) then Some(rows[i]) else None; }
      var c := Fresh(identifier, m, now);
      rows := rows + [c];
      return Some(c);
    }

    method Update(id: string, status: Status, result: string, now: string) returns (command: Option<Command>)
      modifies this
      ensures Answer(rows, command) == CommandQueue.Update(old(rows), id, status, result, now)
    {
      if status == Queued { return None; }
      var i := Find(id);
      if i == |rows| { return None; }
      if Terminal(rows[i].status) { return Some(rows[i]); }
      var c := Moved(rows[i], status, result, now);
      rows := rows[i := c];
      return Some(c);
    }

    method Cancel(id: string, now: string) returns (command: Option<Command>)
      modifies this
      ensures Answer(rows, command) == CommandQueue.Cancel(old(rows), id, now)
    {
      var i := Find(id);
      if i == |rows| { return None; }
      if rows[i].status != Queued { return Some(rows[i]); }
      var c := rows[i].(status := Cancelled, result := CANCELLED, completedAt := Some(now));
      rows := rows[i := c];
      return Some(c);
    }

    /** Nothing else runs in between here; with interruptions a retry is its
        three events. */
    method Retry(id: string, retryId: string, made: string, now: string) returns (command: Option<Command>)
      modifies this
      ensures rows == Run(State(old(rows), []), limit, [RetryRead(id, retryId), RetryEnqueue(0, made, now), RetryMark(0)]).rows
      ensures command.Some? ==> command.value in rows && command.value.retryOf.Some? && (retryId != "" ==> command.value.id == retryId)
    {
      hide CommandQueue.Enqueue, NoneBlank;
      ghost var was := State(rows, []);
      UninterruptedRetry(rows, limit, id, retryId, made, now);
      var i := Find(id);
      if i == |rows| || rows[i].status != Failed { return None; }
      var previous := rows[i];
      EnqueuedRow(rows, limit, MessageOf(previous), Named(retryId, made), now);
      var retried := Enqueue(MessageOf(previous), retryId, made, now);
      if retried.None? { return None; }
      if retried.value.retryOf.Some? { return retried; }
      var k := Find(retryId);
      if k == |rows| { return None; }
      var c := rows[k].(attempt := previous.attempt + 1, retryOf := Some(previous.id));
      rows := rows[k := c];
      assert c == rows[k];
      return Some(c);
    }

    /** recover_delivered: every delivered command of the requirement fails, and
        nothing else changes. */
    method RecoverDelivered(requirement: string, now: string)
      requires UniqueIds(rows)
      modifies this
      ensures |rows| == |old(rows)|
      ensures forall i | 0 <= i < |rows| ::
                rows[i] == if old(rows)[i].requirement == requirement && old(rows)[i].status == Delivered
                           then old(rows)[i].(status := Failed, result := RECOVERED, completedAt := Some(now)) else old(rows)[i]
    {
      var history := rows;
      var i := 0;
      while i < |history|
        invariant i <= |history| == |rows| && UniqueIds(rows)
        invariant forall j | 0 <= j < |rows| :: rows[j].id == history[j].id
        invariant forall j | i <= j < |rows| :: rows[j] == history[j]
        invariant forall j | 0 <= j < i ::
                    rows[j] == if history[j].requirement == requirement && history[j].status == Delivered
                               then history[j].(status := Failed, result := RECOVERED, completedAt := Some(now)) else history[j]
      {
        if history[i].requirement == requirement && history[i].status == Delivered {
          IndexIs(rows, history[i].id, i);
          var updated := Update(history[i].id, Failed, RECOVERED, now);
        }
        i := i + 1;
      }
    }
  }

  /** The three events of a retry, one right after the other. */
  lemma UninterruptedRetry(rows: seq<Command>, limit: nat, id: string, retryId: string, made: string, now: string)
    ensures var end := Run(State(rows, []), limit, [RetryRead(id, retryId), RetryEnqueue(0, made, now), RetryMark(0)]).rows;
            match Retriable(rows, id)
            case None => end == rows
            case Some(previous) =>
              var a := CommandQueue.Enqueue(rows, limit, MessageOf(previous), Named(retryId, made), now);
              end == if a.command.Some? && a.command.value.retryOf.None? then Mark(a.rows, retryId, previous).rows else a.rows
  {
    hide CommandQueue.Enqueue, Mark, Retriable;
    var events := [RetryRead(id, retryId), RetryEnqueue(0, made, now), RetryMark(0)];
    var s1 := Next(State(rows, []), limit, events[0]);
    var s2 := Next(s1, limit, events[1]);
    var s3 := Next(s2, limit, events[2]);
    ThreeEvents(State(rows, []), limit, events[0], events[1], events[2]);
    if Retriable(rows, id).Some? {
      assert s1.retries == [Read(Retriable(rows, id).value, retryId)];
    }
  }

  lemma EnqueuedRow(rows: seq<Command>, limit: nat, m: Message, id: string, now: string)
    ensures var a := CommandQueue.Enqueue(rows, limit, m, id, now);
            a.command.Some? ==> a.command.value in a.rows && a.command.value.id == id
  {
    var a := CommandQueue.Enqueue(rows, limit, m, id, now);
    if a.rows != rows && a.command.Some? { assert a.rows[|rows|] == a.command.value; }
  }
}
