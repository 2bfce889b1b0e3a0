/** The command queue: each operation rewrites the row list under one lock,
    except retry, which reads, enqueues and then updates in a second lock. */
module CommandQueue {
  import opened Utf8
  import opened Strings

  datatype Status = Queued | Delivered | Completed | Failed | Cancelled

  datatype Command = Command(
    id: string, requirement: string, session: string, message: string, status: Status, result: string,
    createdAt: string, deliveredAt: Option<string>, completedAt: Option<string>, attempt: int, retryOf: Option<string>)

  const CANCELLED: string := "用户在投递前取消"

  predicate Terminal(s: Status) {
    s == Completed || s == Failed || s == Cancelled
  }

  function Rank(s: Status): nat {
    if s == Queued then 0 else if s == Delivered then 1 else 2
  }

  /** The first row of an id, or the number of rows. */
  function IndexOf(rows: seq<Command>, id: string): (i: nat)
    ensures i <= |rows| && (i < |rows| ==> rows[i].id == id)
    ensures forall j | 0 <= j < i :: rows[j].id != id
    decreases |rows|
  {
    if rows == [] || rows[0].id == id then 0
    else
      var i := IndexOf(rows[1..], id);
      assert forall j | 0 < j < i + 1 :: rows[j] == rows[1..][j - 1];
      i + 1
  }

  // ----- the locked operations -----

  /** New rows, and the command returned; None is a WorkspaceError. */
  datatype Answer = Answer(rows: seq<Command>, command: Option<Command>)

  datatype Message = Message(requirement: string, session: string, text: string)

  function Fresh(id: string, m: Message, now: string): Command {
    Command(id, m.requirement, m.session, m.text, Queued, "", now, None, None, 1, None)
  }

  predicate SameMessage(c: Command, m: Message) {
    c.requirement == m.requirement && c.session == m.session && c.message == m.text
  }

  /** An id is enqueued once; enqueuing the same again answers with the row. */
  function Enqueue(rows: seq<Command>, limit: nat, m: Message, id: string, now: string): Answer {
    if !NoneBlank([m.requirement, m.session, m.text]) || |m.text| > limit || !IsIdentifier(id) then Answer(rows, None)
    else
      var i := IndexOf(rows, id);
      if i < |rows| then Answer(rows, if SameMessage(rows[i], m) then Some(rows[i]) else None)
      else Answer(rows + [Fresh(id, m, now)], Some(Fresh(id, m, now)))
  }

  function Moved(c: Command, status: Status, result: string, now: string): Command {
    c.(status := status, result := result,
       deliveredAt := if c.deliveredAt.Some? then c.deliveredAt else if status == Delivered then Some(now) else None,
       completedAt := if Terminal(status) then Some(now) else None)
  }

  function Update(rows: seq<Command>, id: string, status: Status, result: string, now: string): Answer {
    var i := IndexOf(rows, id);
    if status == Queued || i == |rows| then Answer(rows, None)
    else if Terminal(rows[i].status) then Answer(rows, Some(rows[i]))
    else Answer(rows[i := Moved(rows[i], status, result, now)], Some(Moved(rows[i], status, result, now)))
  }

  function Cancel(rows: seq<Command>, id: string, now: string): Answer {
    var i := IndexOf(rows, id);
    if i == |rows| then Answer(rows, None)
    else if rows[i].status != Queued then Answer(rows, Some(rows[i]))
    else
      var c := rows[i].(status := Cancelled, result := CANCELLED, completedAt := Some(now));
      Answer(rows[i := c], Some(c))
  }

  /** retry's second lock. */
  function Mark(rows: seq<Command>, retryId: string, previous: Command): Answer {
    var i := IndexOf(rows, retryId);
    if i == |rows| then Answer(rows, None)
    else
      var c := rows[i].(attempt := previous.attempt + 1, retryOf := Some(previous.id));
      Answer(rows[i := c], Some(c))
  }

  /** retry's first read: only a failed command can be retried. */
  function Retriable(rows: seq<Command>, id: string): Option<Command> {
    var i := IndexOf(rows, id);
    if i < |rows| && rows[i].status == Failed then Some(rows[i]) else None
  }

  /** command_id or a new one */
  function Named(id: string, made: string): string {
    if id == "" then made else id
  }

  function MessageOf(c: Command): Message {
    Message(c.requirement, c.session, c.message)
  }

  // ----- interleaving -----

  /** A retry under way in some process: read, or read and enqueued. */
  datatype Retry = Read(previous: Command, retryId: string) | Enqueued(previous: Command, retryId: string) | Over

  datatype State = State(rows: seq<Command>, retries: seq<Retry>)

  datatype Event =
    | DoEnqueue(message: Message, id: string, now: string)
    | DoUpdate(id: string, status: Status, result: string, now: string)
    | DoCancel(id: string, now: string)
    | RetryRead(id: string, retryId: string)
    | RetryEnqueue(k: nat, made: string, now: string)
    | RetryMark(k: nat)

  function Next(st: State, limit: nat, e: Event): State {
    match e
    case DoEnqueue(m, id, now) => st.(rows := Enqueue(st.rows, limit, m, id, now).rows)
    case DoUpdate(id, status, result, now) => st.(rows := Update(st.rows, id, status, result, now).rows)
    case DoCancel(id, now) => st.(rows := Cancel(st.rows, id, now).rows)
    case RetryRead(id, retryId) =>
      var previous := Retriable(st.rows, id);
      if previous.None? then st else st.(retries := st.retries + [Read(previous.value, retryId)])
    case RetryEnqueue(k, made, now) =>
      if k < |st.retries| && st.retries[k].Read? then
        var r := st.retries[k];
        var a := Enqueue(st.rows, limit, MessageOf(r.previous), Named(r.retryId, made), now);
        State(a.rows, st.retries[k := if a.command.Some? && a.command.value.retryOf.None?
                                      then Enqueued(r.previous, r.retryId) else Over])
      else st
    case RetryMark(k) =>
      if k < |st.retries| && st.retries[k].Enqueued? then
        State(Mark(st.rows, st.retries[k].retryId, st.retries[k].previous).rows, st.retries[k := Over])
      else st
  }

  function Run(st: State, limit: nat, events: seq<Event>): State
    decreases |events|
  {
    if events == [] then st else Run(Next(st, limit, events[0]), limit, events[1..])
  }

  lemma ThreeEvents(st: State, limit: nat, a: Event, b: Event, c: Event)
    ensures Run(st, limit, [a, b, c]) == Next(Next(Next(st, limit, a), limit, b), limit, c)
  {
    hide Next;
    var s2 := Next(Next(st, limit, a), limit, b);
    assert [a, b, c][1..] == [b, c] && [b, c][1..] == [c] && [c][1..] == [];
    assert Run(s2, limit, [c]) == Next(s2, limit, c);
  }

  // ----- the order of every run -----

  predicate UniqueIds(rows: seq<Command>) {
    forall i, j | 0 <= i < j < |rows| :: rows[i].id != rows[j].id
  }

  /** What a row may become: the target, message and id never change, the status
      never goes back, and an end state stays with its result. */
  predicate Evolves(c: Command, c': Command) {
    && c'.id == c.id && c'.requirement == c.requirement && c'.session == c.session && c'.message == c.message
    && c'.createdAt == c.createdAt && Rank(c.status) <= Rank(c'.status)
    && (Terminal(c.status) ==> c'.status == c.status && c'.result == c.result && c'.completedAt == c.completedAt)
    && (c.deliveredAt.Some? ==> c'.deliveredAt == c.deliveredAt)
    && (c.retryOf.Some? ==> c'.retryOf.Some?)
  }

  predicate Follows(rows: seq<Command>, rows': seq<Command>) {
    |rows| <= |rows'| && forall i | 0 <= i < |rows| :: Evolves(rows[i], rows'[i])
  }

  lemma Replaced(rows: seq<Command>, i: nat, c: Command)
    requires UniqueIds(rows) && i < |rows| && Evolves(rows[i], c)
    ensures UniqueIds(rows[i := c]) && Follows(rows, rows[i := c])
  {
    forall j | 0 <= j < |rows| ensures Evolves(rows[j], rows[i := c][j]) {}
  }

  lemma EnqueueFollows(rows: seq<Command>, limit: nat, m: Message, id: string, now: string)
    requires UniqueIds(rows)
    ensures var a := Enqueue(rows, limit, m, id, now);
            && UniqueIds(a.rows) && rows <= a.rows && Follows(rows, a.rows)
            && (a.command.Some? ==> IndexOf(a.rows, id) < |a.rows| && a.rows[IndexOf(a.rows, id)] == a.command.value)
            && (forall i | |rows| <= i < |a.rows| :: a.rows[i].id == id)
  {
    var a := Enqueue(rows, limit, m, id, now);
    if a.rows != rows { IndexIs(a.rows, id, |rows|); }
  }

  lemma IndexIs(rows: seq<Command>, id: string, i: nat)
    requires i < |rows| && rows[i].id == id && forall j | 0 <= j < i :: rows[j].id != id
    ensures IndexOf(rows, id) == i
  {
    var k := IndexOf(rows, id);
    assert k <= i;
  }

  lemma NextFollows(st: State, limit: nat, e: Event)
    requires UniqueIds(st.rows)
    ensures UniqueIds(Next(st, limit, e).rows) && Follows(st.rows, Next(st, limit, e).rows)
  {
    hide Enqueue, UniqueIds, Follows, Evolves;
    FollowsItself(st.rows);
    match e {
      case DoEnqueue(m, id, now) => EnqueueFollows(st.rows, limit, m, id, now);
      case DoUpdate(id, status, result, now) => UpdateFollows(st.rows, id, status, result, now);
      case DoCancel(id, now) => CancelFollows(st.rows, id, now);
      case RetryRead(_, _) =>
      case RetryEnqueue(k, made, now) =>
        if k < |st.retries| && st.retries[k].Read? {
          EnqueueFollows(st.rows, limit, MessageOf(st.retries[k].previous), Named(st.retries[k].retryId, made), now);
        }
      case RetryMark(k) =>
        if k < |st.retries| && st.retries[k].Enqueued? { MarkFollows(st.rows, st.retries[k].retryId, st.retries[k].previous); }
    }
  }

  lemma UpdateFollows(rows: seq<Command>, id: string, status: Status, result: string, now: string)
    requires UniqueIds(rows)
    ensures UniqueIds(Update(rows, id, status, result, now).rows) && Follows(rows, Update(rows, id, status, result, now).rows)
  {
    hide UniqueIds, Follows;
    FollowsItself(rows);
    var i := IndexOf(rows, id);
    if status != Queued && i < |rows| && !Terminal(rows[i].status) { Replaced(rows, i, Moved(rows[i], status, result, now)); }
  }

  lemma CancelFollows(rows: seq<Command>, id: string, now: string)
    requires UniqueIds(rows)
    ensures UniqueIds(Cancel(rows, id, now).rows) && Follows(rows, Cancel(rows, id, now).rows)
  {
    hide UniqueIds, Follows;
    FollowsItself(rows);
    var i := IndexOf(rows, id);
    if i < |rows| && rows[i].status == Queued { Replaced(rows, i, Cancel(rows, id, now).rows[i]); }
  }

  lemma MarkFollows(rows: seq<Command>, retryId: string, previous: Command)
    requires UniqueIds(rows)
    ensures UniqueIds(Mark(rows, retryId, previous).rows) && Follows(rows, Mark(rows, retryId, previous).rows)
  {
    hide UniqueIds, Follows;
    FollowsItself(rows);
    var i := IndexOf(rows, retryId);
    if i < |rows| { Replaced(rows, i, Mark(rows, retryId, previous).rows[i]); }
  }

  /** Over every interleaving of enqueues, updates, cancels and the three parts
      of retries, ids stay unique, rows are never removed or reordered, and each
      row only evolves. */
  lemma {:induction false} QueueOrder(st: State, limit: nat, events: seq<Event>)
    requires UniqueIds(st.rows)
    ensures UniqueIds(Run(st, limit, events).rows) && Follows(st.rows, Run(st, limit, events).rows)
    decreases |events|
  {
    hide Next, Evolves;
    if events == [] {
      FollowsItself(st.rows);
    } else {
      var mid := Next(st, limit, events[0]);
      NextFollows(st, limit, events[0]);
      QueueOrder(mid, limit, events[1..]);
      FollowsTransitive(st.rows, mid.rows, Run(st, limit, events).rows);
    }
  }

  lemma FollowsItself(rows: seq<Command>)
    ensures Follows(rows, rows)
  {
  }

  lemma FollowsTransitive(a: seq<Command>, b: seq<Command>, c: seq<Command>)
    requires Follows(a, b) && Follows(b, c)
    ensures Follows(a, c)
  {
    forall i | 0 <= i < |a| ensures Evolves(a[i], c[i]) {
      assert Evolves(a[i], b[i]) && Evolves(b[i], c[i]);
    }
  }

  /** The command an operation answers with is the row on file under its id
      when the operation ends, and an enqueue only answers with its own
      message. */
  predicate OnFile(a: Answer, id: string) {
    a.command.Some? ==> IndexOf(a.rows, id) < |a.rows| && a.rows[IndexOf(a.rows, id)] == a.command.value
  }

  lemma AnswersAreOnFile(rows: seq<Command>, limit: nat, m: Message, id: string, status: Status, result: string, now: string,
                         previous: Command)
    requires UniqueIds(rows)
    ensures OnFile(Enqueue(rows, limit, m, id, now), id) && OnFile(Update(rows, id, status, result, now), id)
    ensures OnFile(Cancel(rows, id, now), id) && OnFile(Mark(rows, id, previous), id)
    ensures var c := Enqueue(rows, limit, m, id, now).command; c.Some? ==> SameMessage(c.value, m) && c.value.id == id
  {
    hide Enqueue, Update, Cancel, Mark;
    EnqueueFollows(rows, limit, m, id, now);
    EnqueueAnswers(rows, limit, m, id, now);
    UpdateAnswers(rows, id, status, result, now);
    CancelAnswers(rows, id, now);
    MarkAnswers(rows, id, previous);
  }

  lemma EnqueueAnswers(rows: seq<Command>, limit: nat, m: Message, id: string, now: string)
    ensures var c := Enqueue(rows, limit, m, id, now).command; c.Some? ==> SameMessage(c.value, m) && c.value.id == id
  {
    hide IsIdentifier;
  }

  lemma UpdateAnswers(rows: seq<Command>, id: string, status: Status, result: string, now: string)
    ensures OnFile(Update(rows, id, status, result, now), id)
  {
    hide Moved;
    var i := IndexOf(rows, id);
    if i < |rows| {
      KeepsIndex(rows, id, Moved(rows[i], status, result, now));
      MovedId(rows[i], status, result, now);
    }
  }

  lemma CancelAnswers(rows: seq<Command>, id: string, now: string)
    ensures OnFile(Cancel(rows, id, now), id)
  {
    var i := IndexOf(rows, id);
    if i < |rows| { KeepsIndex(rows, id, rows[i].(status := Cancelled, result := CANCELLED, completedAt := Some(now))); }
  }

  lemma MarkAnswers(rows: seq<Command>, id: string, previous: Command)
    ensures OnFile(Mark(rows, id, previous), id)
  {
    var i := IndexOf(rows, id);
    if i < |rows| { KeepsIndex(rows, id, rows[i].(attempt := previous.attempt + 1, retryOf := Some(previous.id))); }
  }

  lemma MovedId(c: Command, status: Status, result: string, now: string)
    ensures Moved(c, status, result, now).id == c.id
  {
  }

  lemma KeepsIndex(rows: seq<Command>, id: string, c: Command)
    requires IndexOf(rows, id) < |rows|
    ensures c.id == id ==> IndexOf(rows[IndexOf(rows, id) := c], id) == IndexOf(rows, id)
  {
    if c.id == id { IndexIs(rows[IndexOf(rows, id) := c], id, IndexOf(rows, id)); }
  }

  // ----- replaying a retry -----

  /** The row a retry under way has enqueued, or found, under its id. */
  predicate HasRow(rows: seq<Command>, r: Retry) {
    r.Enqueued? && r.retryId != "" ==>
      && IndexOf(rows, r.retryId) < |rows|
      && SameMessage(rows[IndexOf(rows, r.retryId)], MessageOf(r.previous))
  }

  ghost predicate RetriesHaveRows(st: State) {
    forall i | 0 <= i < |st.retries| :: HasRow(st.rows, st.retries[i])
  }

  lemma RowStays(rows: seq<Command>, rows': seq<Command>, r: Retry)
    requires Follows(rows, rows') && HasRow(rows, r)
    ensures HasRow(rows', r)
  {
    if r.Enqueued? && r.retryId != "" {
      var i := IndexOf(rows, r.retryId);
      forall j | 0 <= j < i ensures rows'[j].id != r.retryId { assert Evolves(rows[j], rows'[j]); }
      assert Evolves(rows[i], rows'[i]);
      IndexIs(rows', r.retryId, i);
    }
  }

  lemma RetryStep(st: State, limit: nat, e: Event)
    requires UniqueIds(st.rows) && RetriesHaveRows(st)
    ensures RetriesHaveRows(Next(st, limit, e))
  {
    hide UniqueIds, Follows, HasRow, Enqueue, Update, Cancel, Mark;
    var st' := Next(st, limit, e);
    NextFollows(st, limit, e);
    forall i | 0 <= i < |st'.retries| ensures HasRow(st'.rows, st'.retries[i]) {
      if i < |st.retries| && st'.retries[i] == st.retries[i] {
        RowStays(st.rows, st'.rows, st.retries[i]);
      } else {
        MovedHasRow(st, limit, e, i);
      }
    }
  }

  lemma MovedHasRow(st: State, limit: nat, e: Event, i: nat)
    requires UniqueIds(st.rows) && i < |Next(st, limit, e).retries|
    requires i < |st.retries| ==> Next(st, limit, e).retries[i] != st.retries[i]
    ensures HasRow(Next(st, limit, e).rows, Next(st, limit, e).retries[i])
  {
    hide UniqueIds, Follows, Enqueue, Update, Cancel, Mark;
    if e.RetryEnqueue? && e.k < |st.retries| && st.retries[e.k].Read? {
      var r := st.retries[e.k];
      EnqueueFollows(st.rows, limit, MessageOf(r.previous), Named(r.retryId, e.made), e.now);
      EnqueueAnswers(st.rows, limit, MessageOf(r.previous), Named(r.retryId, e.made), e.now);
    }
  }

  lemma {:induction false} RetriesKeepRows(st: State, limit: nat, events: seq<Event>)
    requires UniqueIds(st.rows) && RetriesHaveRows(st)
    ensures RetriesHaveRows(Run(st, limit, events))
    decreases |events|
  {
    hide Next, RetriesHaveRows, UniqueIds;
    if events != [] {
      RetryStep(st, limit, events[0]);
      NextFollows(st, limit, events[0]);
      RetriesKeepRows(Next(st, limit, events[0]), limit, events[1..]);
    }
  }

  /** Over any run, however often and however interleaved retries are sent under
      one id, and whatever else is enqueued: there is at most one row of that id,
      and every retry that got past its enqueue has that row, with its own
      message. */
  lemma ReplayedRetryAddsOneRow(st: State, limit: nat, events: seq<Event>, retryId: string)
    requires UniqueIds(st.rows) && RetriesHaveRows(st)
    ensures var end := Run(st, limit, events);
            && (forall i, j | 0 <= i < j < |end.rows| && end.rows[i].id == retryId :: end.rows[j].id != retryId)
            && (retryId != "" ==>
                  forall k | 0 <= k < |end.retries| && end.retries[k].Enqueued? && end.retries[k].retryId == retryId ::
                    exists i | 0 <= i < |end.rows| :: end.rows[i].id == retryId && SameMessage(end.rows[i], MessageOf(end.retries[k].previous)))
  {
    hide Run, SameMessage, RetriesHaveRows, Follows;
    QueueOrder(st, limit, events);
    RetriesKeepRows(st, limit, events);
    if retryId != "" { RowsOfRetries(Run(st, limit, events), retryId); }
  }

  lemma RowsOfRetries(st: State, retryId: string)
    requires RetriesHaveRows(st) && retryId != ""
    ensures forall k | 0 <= k < |st.retries| && st.retries[k].Enqueued? && st.retries[k].retryId == retryId ::
              exists i | 0 <= i < |st.rows| :: st.rows[i].id == retryId && SameMessage(st.rows[i], MessageOf(st.retries[k].previous))
  {
    hide SameMessage;
    forall k | 0 <= k < |st.retries| && st.retries[k].Enqueued? && st.retries[k].retryId == retryId
      ensures exists i | 0 <= i < |st.rows| :: st.rows[i].id == retryId && SameMessage(st.rows[i], MessageOf(st.retries[k].previous))
    {
      assert HasRow(st.rows, st.retries[k]);
      assert st.rows[IndexOf(st.rows, retryId)].id == retryId;
    }
  }

  /** With an empty retry id every replay adds a row of its own, and raises. */
  lemma EmptyRetryIdRepeats(st: State, limit: nat, c: Command, made: string, now: string)
    requires UniqueIds(st.rows) && |st.retries| == 0 && Retriable(st.rows, c.id) == Some(c) && c.id != ""
    requires NoneBlank([c.requirement, c.session, c.message]) && |c.message| <= limit
    requires IsIdentifier(made) && IndexOf(st.rows, made) == |st.rows| && IndexOf(st.rows, "") == |st.rows|
    ensures var after := Run(st, limit, [RetryRead(c.id, ""), RetryEnqueue(0, made, now), RetryMark(0)]);
            after.rows == st.rows + [Fresh(made, MessageOf(c), now)]
            && Mark(st.rows + [Fresh(made, MessageOf(c), now)], "", c).command.None?
  {
    var events := [RetryRead(c.id, ""), RetryEnqueue(0, made, now), RetryMark(0)];
    var s1 := Next(st, limit, events[0]);
    var s2 := Next(s1, limit, events[1]);
    assert s1.retries[0] == Read(c, "");
    assert s2.rows == st.rows + [Fresh(made, MessageOf(c), now)] && s2.retries == [Enqueued(c, "")];
    assert IndexOf(s2.rows, "") == |s2.rows| by { NotThere(s2.rows, ""); }
    assert Run(s2, limit, [events[2]]) == Next(s2, limit, events[2]) by { assert [events[2]][1..] == []; }
    assert events[1..] == [events[1], events[2]] && events[1..][1..] == [events[2]] && events[1..][1..][1..] == [];
  }

  lemma NotThere(rows: seq<Command>, id: string)
    requires forall i | 0 <= i < |rows| :: rows[i].id != id
    ensures IndexOf(rows, id) == |rows|
  {
  }
}
