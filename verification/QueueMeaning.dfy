/** What each operation of the command queue does to the rows, field by field. */
module QueueMeaning {
  import opened Utf8
  import opened Strings
  import opened CommandQueue
  import CommandQueues

  /** The first row with the id. */
  predicate RowOf(rows: seq<Command>, id: string, i: int) {
    0 <= i < |rows| && rows[i].id == id && forall j | 0 <= j < i :: rows[j].id != id
  }

  predicate NoRow(rows: seq<Command>, id: string) {
    forall c | c in rows :: c.id != id
  }

  lemma IndexIsRow(rows: seq<Command>, id: string)
    ensures forall i :: RowOf(rows, id, i) <==> i == IndexOf(rows, id) < |rows|
    ensures NoRow(rows, id) <==> IndexOf(rows, id) == |rows|
  {
    forall i | RowOf(rows, id, i) ensures i == IndexOf(rows, id) { IndexIs(rows, id, i); }
    var k := IndexOf(rows, id);
    if k < |rows| { assert rows[k] in rows; }
  }

  predicate Acceptable(m: Message, limit: nat, id: string) {
    !Blank(m.requirement) && !Blank(m.session) && !Blank(m.text) && |m.text| <= limit && IsIdentifier(id)
  }

  /** A first attempt, queued. */
  function Queues(id: string, m: Message, now: string): Command {
    Command(id, m.requirement, m.session, m.text, Queued, "", now, None, None, 1, None)
  }

  /** A command that may be enqueued comes last, when its id is free; when it is
      not, it is answered with the row of that id if that is of the same message
      for the same session and requirement, and refused otherwise. */
  lemma EnqueueIs(rows: seq<Command>, limit: nat, m: Message, id: string, now: string)
    ensures var a := Enqueue(rows, limit, m, id, now);
            && (!Acceptable(m, limit, id) ==> a == Answer(rows, None))
            && (Acceptable(m, limit, id) && NoRow(rows, id) ==> a == Answer(rows + [Queues(id, m, now)], Some(Queues(id, m, now))))
            && forall i | Acceptable(m, limit, id) && RowOf(rows, id, i) ::
                 a == Answer(rows, if (rows[i].requirement, rows[i].session, rows[i].message) == (m.requirement, m.session, m.text)
                                   then Some(rows[i]) else None)
  {
    hide Blank, IsIdentifier, RowOf;
    IndexIsRow(rows, id);
    var texts := [m.requirement, m.session, m.text];
    assert texts[0] == m.requirement && texts[1] == m.session && texts[2] == m.text && |texts| == 3;
    if Blank(m.requirement) { assert Blank(texts[0]); }
    if Blank(m.session) { assert Blank(texts[1]); }
    if Blank(m.text) { assert Blank(texts[2]); }
    assert !Blank(m.requirement) && !Blank(m.session) && !Blank(m.text) <==> NoneBlank(texts);
    assert forall i | RowOf(rows, id, i) :: 0 <= i < |rows| by { RowsThere(rows, id); }
  }

  lemma RowsThere(rows: seq<Command>, id: string)
    ensures forall i | RowOf(rows, id, i) :: 0 <= i < |rows|
  {
  }

  predicate Ended(s: Status) {
    s.Completed? || s.Failed? || s.Cancelled?
  }

  /** An update to anything but queued gives the row the new status and result; it
      tells when it was first delivered and, with an end state, when it ended. A
      row that has ended is answered as it is. */
  lemma UpdateIs(rows: seq<Command>, id: string, status: Status, result: string, now: string)
    ensures var a := Update(rows, id, status, result, now);
            && (status == Queued || NoRow(rows, id) ==> a == Answer(rows, None))
            && forall i | status != Queued && RowOf(rows, id, i) ::
                 var c := rows[i];
                 var c' := Command(c.id, c.requirement, c.session, c.message, status, result, c.createdAt,
                                   if c.deliveredAt != None then c.deliveredAt else if status.Delivered? then Some(now) else None,
                                   if Ended(status) then Some(now) else None, c.attempt, c.retryOf);
                 a == if Ended(c.status) then Answer(rows, Some(c)) else Answer(rows[i := c'], Some(c'))
  {
    hide RowOf, NoRow;
    IndexIsRow(rows, id);
    RowsThere(rows, id);
  }

  /** Only a queued command is cancelled, and says so; any other is answered. */
  lemma CancelIs(rows: seq<Command>, id: string, now: string)
    ensures var a := Cancel(rows, id, now);
            && (NoRow(rows, id) ==> a == Answer(rows, None))
            && forall i | RowOf(rows, id, i) ::
                 var c := rows[i];
                 var c' := Command(c.id, c.requirement, c.session, c.message, Cancelled, "用户在投递前取消", c.createdAt, c.deliveredAt,
                                   Some(now), c.attempt, c.retryOf);
                 a == if c.status.Queued? then Answer(rows[i := c'], Some(c')) else Answer(rows, Some(c))
  {
    hide RowOf, NoRow;
    IndexIsRow(rows, id);
    RowsThere(rows, id);
  }

  /** The rows after a retry that nothing interrupts. */
  function AfterRetry(rows: seq<Command>, limit: nat, id: string, retryId: string, now: string): seq<Command> {
    Run(State(rows, []), limit, [RetryRead(id, retryId), RetryEnqueue(0, "", now), RetryMark(0)]).rows
  }

  /** A retry of a failed command enqueues its message again under the retry id, as
      the next attempt and naming the command retried; a row of the retry id that
      is there already is marked so, once, if it is of the same message, and left
      alone otherwise. Nothing else is retried. */
  lemma RetryIs(rows: seq<Command>, limit: nat, id: string, retryId: string, now: string)
    requires retryId != ""
    ensures NoRow(rows, id) ==> AfterRetry(rows, limit, id, retryId, now) == rows
    ensures forall i | RowOf(rows, id, i) ::
              var p := rows[i];
              var m := Message(p.requirement, p.session, p.message);
              && (!p.status.Failed? || !Acceptable(m, limit, retryId) ==> AfterRetry(rows, limit, id, retryId, now) == rows)
              && (p.status.Failed? && Acceptable(m, limit, retryId) && NoRow(rows, retryId) ==>
                    AfterRetry(rows, limit, id, retryId, now)
                    == rows + [Queues(retryId, m, now).(attempt := p.attempt + 1, retryOf := Some(p.id))])
              && (forall k | p.status.Failed? && Acceptable(m, limit, retryId) && RowOf(rows, retryId, k) ::
                    var r := rows[k];
                    AfterRetry(rows, limit, id, retryId, now)
                    == if r.retryOf == None && (r.requirement, r.session, r.message) == (p.requirement, p.session, p.message)
                       then rows[k := r.(attempt := p.attempt + 1, retryOf := Some(p.id))] else rows)
  {
    hide RowOf, NoRow, Acceptable, Enqueue, Run;
    CommandQueues.UninterruptedRetry(rows, limit, id, retryId, "", now);
    IndexIsRow(rows, id);
    RowsThere(rows, id);
    if i :| RowOf(rows, id, i) && rows[i].status.Failed? {
      RetryOfRow(rows, limit, rows[i], retryId, now);
    }
    RowsThere(rows, retryId);
  }

  lemma RetryOfRow(rows: seq<Command>, limit: nat, p: Command, retryId: string, now: string)
    ensures var m := Message(p.requirement, p.session, p.message);
            var a := Enqueue(rows, limit, m, retryId, now);
            var end := if a.command.Some? && a.command.value.retryOf.None? then Mark(a.rows, retryId, p).rows else a.rows;
            && (!Acceptable(m, limit, retryId) ==> end == rows)
            && (Acceptable(m, limit, retryId) && NoRow(rows, retryId) ==>
                  end == rows + [Queues(retryId, m, now).(attempt := p.attempt + 1, retryOf := Some(p.id))])
            && forall k | Acceptable(m, limit, retryId) && RowOf(rows, retryId, k) ::
                 var r := rows[k];
                 end == if r.retryOf == None && (r.requirement, r.session, r.message) == (p.requirement, p.session, p.message)
                        then rows[k := r.(attempt := p.attempt + 1, retryOf := Some(p.id))] else rows
  {
    hide RowOf, NoRow, Acceptable, Enqueue;
    var m := Message(p.requirement, p.session, p.message);
    EnqueueIs(rows, limit, m, retryId, now);
    IndexIsRow(rows, retryId);
    RowsThere(rows, retryId);
    if NoRow(rows, retryId) {
      var c := Queues(retryId, m, now);
      FreshRow(rows, retryId);
      IndexIs(rows + [c], retryId, |rows|);
    }
  }

  lemma FreshRow(rows: seq<Command>, id: string)
    requires NoRow(rows, id)
    ensures forall j | 0 <= j < |rows| :: rows[j].id != id
  {
  }

  /** The steps that interleave: an enqueue, an update and a cancellation change the
      rows as they do alone and no retry under way; a retry begins with the failed
      row as it is then, enqueues that row's message, and goes on to mark unless the
      row it was answered with is marked. */
  lemma StepsAre(st: State, limit: nat, m: Message, id: string, retryId: string, status: Status, result: string, now: string, k: nat)
    ensures Next(st, limit, DoEnqueue(m, id, now)) == State(Enqueue(st.rows, limit, m, id, now).rows, st.retries)
    ensures Next(st, limit, DoUpdate(id, status, result, now)) == State(Update(st.rows, id, status, result, now).rows, st.retries)
    ensures Next(st, limit, DoCancel(id, now)) == State(Cancel(st.rows, id, now).rows, st.retries)
    ensures forall i | RowOf(st.rows, id, i) ::
              Next(st, limit, RetryRead(id, retryId))
              == if st.rows[i].status.Failed? then State(st.rows, st.retries + [Read(st.rows[i], retryId)]) else st
    ensures NoRow(st.rows, id) ==> Next(st, limit, RetryRead(id, retryId)) == st
    ensures k < |st.retries| && st.retries[k].Read? ==>
              var p := st.retries[k].previous;
              var a := Enqueue(st.rows, limit, Message(p.requirement, p.session, p.message),
                               if st.retries[k].retryId == "" then id else st.retries[k].retryId, now);
              Next(st, limit, RetryEnqueue(k, id, now))
              == State(a.rows, st.retries[k := match a.command
                                               case Some(c) => if c.retryOf == None then Enqueued(p, st.retries[k].retryId) else Over
                                               case None => Over])
    ensures forall i | k < |st.retries| && st.retries[k].Enqueued? && RowOf(st.rows, st.retries[k].retryId, i) ::
              var p := st.retries[k].previous;
              Next(st, limit, RetryMark(k))
              == State(st.rows[i := st.rows[i].(attempt := p.attempt + 1, retryOf := Some(p.id))], st.retries[k := Over])
  {
    hide Enqueue, Update, Cancel, RowOf, NoRow;
    IndexIsRow(st.rows, id);
    RowsThere(st.rows, id);
    if k < |st.retries| && st.retries[k].Enqueued? {
      IndexIsRow(st.rows, st.retries[k].retryId);
      RowsThere(st.rows, st.retries[k].retryId);
    }
  }
}
