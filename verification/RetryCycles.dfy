/** Following retries back: when the rows of the queue have no cycle of commands
    that are retries of one another. */
module RetryCycles {
  import opened Utf8
  import opened Strings
  import opened CommandQueue

  // ----- following a retry to what it retries -----

  /** The row a command is a retry of. */
  function Up(rows: seq<Command>, i: nat): (j: Option<nat>)
    requires i < |rows|
    ensures j.Some? ==> j.value < |rows|
  {
    if rows[i].retryOf.Some? && IndexOf(rows, rows[i].retryOf.value) < |rows|
    then Some(IndexOf(rows, rows[i].retryOf.value)) else None
  }

  /** The row n retries back. */
  function Climb(rows: seq<Command>, i: nat, n: nat): (j: Option<nat>)
    requires i < |rows|
    ensures j.Some? ==> j.value < |rows|
    decreases n
  {
    if n == 0 then Some(i)
    else if Up(rows, i).None? then None
    else Climb(rows, Up(rows, i).value, n - 1)
  }

  /** Some command is, over one or more retries, a retry of itself. */
  ghost predicate Cyclic(rows: seq<Command>) {
    exists i: nat, n: nat :: OnCycle(rows, i, n)
  }

  predicate OnCycle(rows: seq<Command>, i: nat, n: nat) {
    i < |rows| && n > 0 && Climb(rows, i, n) == Some(i)
  }

  /** The chain of retries from one row leads to another. */
  predicate Reaches(rows: seq<Command>, p: nat, q: nat) {
    p < |rows| && exists n: nat | n < |rows| :: Climb(rows, p, n) == Some(q)
  }

  lemma {:induction false} ClimbOn(rows: seq<Command>, i: nat, m: nat, n: nat)
    requires i < |rows|
    ensures Climb(rows, i, m + n) == if Climb(rows, i, m).None? then None else Climb(rows, Climb(rows, i, m).value, n)
    decreases m
  {
    if m > 0 && Up(rows, i).Some? { ClimbOn(rows, Up(rows, i).value, m - 1, n); }
  }

  /** A chain that ever gets there does so in fewer steps than there are rows. */
  lemma {:induction false} ReachesSoon(rows: seq<Command>, p: nat, q: nat, n: nat)
    requires p < |rows| && Climb(rows, p, n) == Some(q)
    ensures Reaches(rows, p, q)
    decreases n
  {
    if n >= |rows| {
      forall k | 0 <= k <= n ensures Climb(rows, p, k).Some? { ClimbOn(rows, p, k, n - k); }
      var visited := seq(n + 1, k requires 0 <= k <= n => var j := Climb(rows, p, k); if j.Some? then j.value else 0);
      var a, b := Repeats(visited, |rows|);
      ClimbOn(rows, p, a, n - b);
      ClimbOn(rows, p, b, n - b);
      ReachesSoon(rows, p, q, a + (n - b));
    }
  }

  /** More places than values: some value is there twice. */
  lemma {:induction false} Repeats(s: seq<nat>, n: nat) returns (a: nat, b: nat)
    requires |s| > n && forall i | 0 <= i < |s| :: s[i] < n
    ensures a < b < |s| && s[a] == s[b]
    decreases n
  {
    assert s[0] < n;
    var last: nat := n - 1;
    if i, j :| 0 <= i < j < |s| && s[i] == last && s[j] == last {
      a, b := i, j;
    } else if k :| 0 <= k < |s| && s[k] == last {
      var rest := s[..k] + s[k + 1..];
      assert forall i | 0 <= i < |rest| :: rest[i] == if i < k then s[i] else s[i + 1];
      a, b := Repeats(rest, n - 1);
      a, b := if a < k then a else a + 1, if b < k then b else b + 1;
    } else {
      a, b := Repeats(s, n - 1);
    }
  }

  // ----- marking a row as a retry -----

  predicate SameIds(rows: seq<Command>, rows': seq<Command>) {
    |rows| <= |rows'| && forall i | 0 <= i < |rows| :: rows'[i].id == rows[i].id
  }

  lemma SameIndex(rows: seq<Command>, rows': seq<Command>, id: string)
    requires |rows| == |rows'| && forall i | 0 <= i < |rows| :: rows'[i].id == rows[i].id
    ensures IndexOf(rows', id) == IndexOf(rows, id)
  {
    var k := IndexOf(rows, id);
    if k < |rows| { IndexIs(rows', id, k); } else { NotThere(rows', id); }
  }

  lemma NextIds(st: State, limit: nat, e: Event)
    ensures var rows' := Next(st, limit, e).rows;
            && SameIds(st.rows, rows')
            && (!e.RetryMark? ==> forall i | 0 <= i < |rows'| :: rows'[i].retryOf == if i < |st.rows| then st.rows[i].retryOf else None)
  {
  }

  /** What marking changes: the row of the retry id now leads to the command
      retried, all others lead where they did. */
  lemma MarkUps(rows: seq<Command>, retryId: string, previous: Command)
    requires IndexOf(rows, retryId) < |rows|
    ensures var rows', q, p := Mark(rows, retryId, previous).rows, IndexOf(rows, retryId), IndexOf(rows, previous.id);
            && |rows'| == |rows| && (forall i | 0 <= i < |rows| && i != q :: Up(rows', i) == Up(rows, i))
            && Up(rows', q) == if p < |rows| then Some(p) else None
  {
    var rows' := Mark(rows, retryId, previous).rows;
    forall id ensures IndexOf(rows', id) == IndexOf(rows, id) { SameIndex(rows, rows', id); }
  }

  /** While a chain does not come to q, it is the same in two lists that differ
      only in where q leads. */
  lemma {:induction false} SameClimb(rows: seq<Command>, rows': seq<Command>, q: nat, i: nat, n: nat)
    requires |rows'| == |rows| && i < |rows| && forall j | 0 <= j < |rows| && j != q :: Up(rows', j) == Up(rows, j)
    requires forall k | 0 <= k < n :: Climb(rows', i, k) != Some(q)
    ensures Climb(rows', i, n) == Climb(rows, i, n)
    decreases n
  {
    if n > 0 {
      assert Climb(rows', i, 0) == Some(i);
      if Up(rows, i).Some? {
        var j := Up(rows, i).value;
        forall k | 0 <= k < n - 1 ensures Climb(rows', j, k) != Some(q) { assert Climb(rows', i, k + 1) == Climb(rows', j, k); }
        SameClimb(rows, rows', q, j, n - 1);
      }
    }
  }

  /** The first time a chain comes to q. */
  lemma {:induction false} FirstTime(rows: seq<Command>, i: nat, q: nat, n: nat) returns (m: nat)
    requires i < |rows| && Climb(rows, i, n) == Some(q)
    ensures m <= n && Climb(rows, i, m) == Some(q) && forall k | 0 <= k < m :: Climb(rows, i, k) != Some(q)
    decreases n
  {
    if k :| 0 <= k < n && Climb(rows, i, k) == Some(q) {
      m := FirstTime(rows, i, q, k);
    } else {
      m := n;
    }
  }

  /** A chain from the command retried to the row of the retry id closes a
      cycle. */
  lemma ReachingCloses(rows: seq<Command>, rows': seq<Command>, q: nat, p: nat)
    requires |rows'| == |rows| && q < |rows| && p < |rows| && Up(rows', q) == Some(p)
    requires forall i | 0 <= i < |rows| && i != q :: Up(rows', i) == Up(rows, i)
    requires Reaches(rows, p, q)
    ensures Cyclic(rows')
  {
    var n: nat :| n < |rows| && Climb(rows, p, n) == Some(q);
    var m := FirstTime(rows, p, q, n);
    SameClimb(rows', rows, q, p, m);
    assert Climb(rows', q, m + 1) == Climb(rows', p, m);
    assert OnCycle(rows', q, m + 1);
  }

  /** A new cycle goes through the row marked. */
  lemma CycleReaches(rows: seq<Command>, rows': seq<Command>, q: nat, i: nat, n: nat)
    requires |rows'| == |rows| && q < |rows| && forall j | 0 <= j < |rows| && j != q :: Up(rows', j) == Up(rows, j)
    requires OnCycle(rows', i, n) && !Cyclic(rows)
    ensures Up(rows', q).Some? && Reaches(rows, Up(rows', q).value, q)
  {
    hide Cyclic;
    var m := CycleMeets(rows, rows', q, i, n);
    ClimbOn(rows', i, m, n);
    ClimbOn(rows', i, n, m);
    assert Climb(rows', q, n) == Some(q);
    var p := Up(rows', q).value;
    assert Climb(rows', p, n - 1) == Some(q);
    var first := FirstTime(rows', p, q, n - 1);
    SameClimb(rows, rows', q, p, first);
    ReachesSoon(rows, p, q, first);
  }

  lemma CycleMeets(rows: seq<Command>, rows': seq<Command>, q: nat, i: nat, n: nat) returns (m: nat)
    requires |rows'| == |rows| && q < |rows| && forall j | 0 <= j < |rows| && j != q :: Up(rows', j) == Up(rows, j)
    requires OnCycle(rows', i, n) && !Cyclic(rows)
    ensures m < n && Climb(rows', i, m) == Some(q)
  {
    hide Cyclic;
    m := 0;
    if k: nat :| k < n && Climb(rows', i, k) == Some(q) {
      m := k;
    } else {
      SameClimb(rows, rows', q, i, n);
      IsCyclic(rows, i, n);
    }
  }

  lemma IsCyclic(rows: seq<Command>, i: nat, n: nat)
    requires OnCycle(rows, i, n)
    ensures Cyclic(rows)
  {
  }

  /** Marking keeps the rows free of cycles exactly when the chain from the
      command retried does not lead to the row of the retry id. */
  lemma MarkCycles(rows: seq<Command>, retryId: string, previous: Command)
    requires !Cyclic(rows) && IndexOf(rows, retryId) < |rows|
    ensures Cyclic(Mark(rows, retryId, previous).rows) <==> Reaches(rows, IndexOf(rows, previous.id), IndexOf(rows, retryId))
  {
    hide Mark, Climb, Up;
    var rows', q, p := Mark(rows, retryId, previous).rows, IndexOf(rows, retryId), IndexOf(rows, previous.id);
    MarkUps(rows, retryId, previous);
    if Reaches(rows, p, q) { ReachingCloses(rows, rows', q, p); }
    if Cyclic(rows') {
      var i, n :| OnCycle(rows', i, n);
      CycleReaches(rows, rows', q, i, n);
    }
  }

  // ----- every run -----

  lemma {:induction false} ClimbInOld(rows: seq<Command>, rows': seq<Command>, i: nat, n: nat, j: nat)
    requires SameIds(rows, rows') && forall k | 0 <= k < |rows'| :: rows'[k].retryOf == if k < |rows| then rows[k].retryOf else None
    requires i < |rows'| && j < |rows| && Climb(rows', i, n) == Some(j)
    ensures i < |rows| && Climb(rows, i, n) == Some(j)
    decreases n
  {
    if n > 0 {
      var k := Up(rows', i).value;
      ClimbInOld(rows, rows', k, n - 1, j);
      IndexIs(rows, rows[i].retryOf.value, k) by { assert forall m | 0 <= m < k :: rows'[m].id == rows[m].id; }
    }
  }

  /** Events other than marks close no cycle. */
  lemma OthersCloseNone(rows: seq<Command>, rows': seq<Command>)
    requires SameIds(rows, rows') && forall k | 0 <= k < |rows'| :: rows'[k].retryOf == if k < |rows| then rows[k].retryOf else None
    requires Cyclic(rows')
    ensures Cyclic(rows)
  {
    var i, n :| OnCycle(rows', i, n);
    assert Up(rows', i).Some?;
    ClimbInOld(rows, rows', i, n, i);
    assert OnCycle(rows, i, n);
  }

  /** The check before each mark that finds its row: the chain from the command
      retried does not lead there. */
  predicate SafeMark(st: State, e: Event) {
    e.RetryMark? && e.k < |st.retries| && st.retries[e.k].Enqueued? ==>
      var r := st.retries[e.k];
      IndexOf(st.rows, r.retryId) < |st.rows| ==>
        !Reaches(st.rows, IndexOf(st.rows, r.previous.id), IndexOf(st.rows, r.retryId))
  }

  predicate MarksAreSafe(st: State, limit: nat, events: seq<Event>)
    decreases |events|
  {
    events != [] ==> SafeMark(st, events[0]) && MarksAreSafe(Next(st, limit, events[0]), limit, events[1..])
  }

  ghost predicate NeverCyclic(st: State, limit: nat, events: seq<Event>)
    decreases |events|
  {
    !Cyclic(st.rows) && (events != [] ==> NeverCyclic(Next(st, limit, events[0]), limit, events[1..]))
  }

  lemma StepCycles(st: State, limit: nat, e: Event)
    requires !Cyclic(st.rows)
    ensures Cyclic(Next(st, limit, e).rows) <==> !SafeMark(st, e)
  {
    hide Cyclic, Reaches, Enqueue, Update, Cancel, Mark;
    NextIds(st, limit, e);
    if e.RetryMark? {
      if e.k < |st.retries| && st.retries[e.k].Enqueued? {
        var r := st.retries[e.k];
        if IndexOf(st.rows, r.retryId) < |st.rows| { MarkCycles(st.rows, r.retryId, r.previous); } else { MarkNothing(st.rows, r.retryId, r.previous); }
      }
    } else if Cyclic(Next(st, limit, e).rows) {
      OthersCloseNone(st.rows, Next(st, limit, e).rows);
    }
  }

  lemma MarkNothing(rows: seq<Command>, retryId: string, previous: Command)
    requires IndexOf(rows, retryId) == |rows|
    ensures Mark(rows, retryId, previous).rows == rows
  {
  }

  /** Over every interleaving, the rows are free of cycles throughout exactly when
      every mark is safe where it happens. */
  lemma {:induction false} CyclesComeFromMarks(st: State, limit: nat, events: seq<Event>)
    requires !Cyclic(st.rows)
    ensures NeverCyclic(st, limit, events) <==> MarksAreSafe(st, limit, events)
    decreases |events|
  {
    hide Next, Cyclic, SafeMark;
    if events != [] {
      StepCycles(st, limit, events[0]);
      if !Cyclic(Next(st, limit, events[0]).rows) { CyclesComeFromMarks(Next(st, limit, events[0]), limit, events[1..]); }
    }
  }

  // ----- one retry by itself -----

  /** Every retry is of a command on file. */
  predicate NamesRows(rows: seq<Command>) {
    forall i | 0 <= i < |rows| && rows[i].retryOf.Some? :: IndexOf(rows, rows[i].retryOf.value) < |rows|
  }

  /** The retry finds a row of its id that is not marked yet and says the same. */
  predicate FindsRow(rows: seq<Command>, limit: nat, id: string, retryId: string) {
    && Retriable(rows, id).Some? && IndexOf(rows, retryId) < |rows| && rows[IndexOf(rows, retryId)].retryOf.None?
    && Enqueue(rows, limit, MessageOf(Retriable(rows, id).value), retryId, "").command.Some?
  }

  lemma {:induction false} NothingLeads(rows: seq<Command>, i: nat, n: nat, j: nat)
    requires i < |rows| && i != j && forall k | 0 <= k < |rows| :: Up(rows, k) != Some(j)
    ensures Climb(rows, i, n) != Some(j)
    decreases n
  {
    if n > 0 && Up(rows, i).Some? { NothingLeads(rows, Up(rows, i).value, n - 1, j); }
  }

  /** A row just added is the retry of nothing, and nothing is its retry. */
  lemma FreshIsApart(rows: seq<Command>, c: Command, p: nat)
    requires NamesRows(rows) && IndexOf(rows, c.id) == |rows| && c.retryOf == None && p < |rows|
    ensures !Reaches(rows + [c], p, |rows|)
  {
    var rows' := rows + [c];
    forall k | 0 <= k < |rows'| ensures Up(rows', k) != Some(|rows|) {
      if k < |rows| && rows[k].retryOf.Some? {
        IndexIs(rows', rows[k].retryOf.value, IndexOf(rows, rows[k].retryOf.value));
      }
    }
    forall n: nat | n < |rows'| ensures Climb(rows', p, n) != Some(|rows|) { NothingLeads(rows', p, n, |rows|); }
  }

  lemma AddsRow(rows: seq<Command>, c: Command, id: string)
    requires IndexOf(rows, c.id) == |rows| && IndexOf(rows, id) < |rows|
    ensures IndexOf(rows + [c], c.id) == |rows| && IndexOf(rows + [c], id) == IndexOf(rows, id)
  {
    IndexIs(rows + [c], c.id, |rows|);
    IndexIs(rows + [c], id, IndexOf(rows, id));
  }

  /** A retry without interruption closes a cycle exactly when it finds a row of
      its id, not marked yet, to which the chain from the command retried already
      leads: all of it there to be looked at before the call. */
  lemma RetryCloses(st: State, limit: nat, id: string, retryId: string, made: string, now: string)
    requires !Cyclic(st.rows) && NamesRows(st.rows) && retryId != ""
    ensures var k := |st.retries|;
            Cyclic(Run(st, limit, [RetryRead(id, retryId), RetryEnqueue(k, made, now), RetryMark(k)]).rows)
            <==> FindsRow(st.rows, limit, id, retryId) && Reaches(st.rows, IndexOf(st.rows, id), IndexOf(st.rows, retryId))
  {
    hide Cyclic, Reaches, NamesRows, Mark, IsIdentifier;
    var k := |st.retries|;
    ThreeEvents(st, limit, RetryRead(id, retryId), RetryEnqueue(k, made, now), RetryMark(k));
    var previous := Retriable(st.rows, id);
    if previous.Some? {
      var c := previous.value;
      var s1 := Next(st, limit, RetryRead(id, retryId));
      assert s1.rows == st.rows && s1.retries[k] == Read(c, retryId);
      var a := Enqueue(st.rows, limit, MessageOf(c), retryId, now);
      if a.command.Some? && a.command.value.retryOf.None? {
        if IndexOf(st.rows, retryId) < |st.rows| {
          MarkCycles(st.rows, retryId, c);
        } else {
          var row := Fresh(retryId, MessageOf(c), now);
          AddsRow(st.rows, row, id);
          if Cyclic(st.rows + [row]) { OthersCloseNone(st.rows, st.rows + [row]); }
          MarkCycles(st.rows + [row], retryId, c);
          FreshIsApart(st.rows, row, IndexOf(st.rows, id));
        }
      }
    }
  }

  // ----- what was retried comes first -----

  /** Every retry names an earlier row. */
  predicate Backward(rows: seq<Command>) {
    forall i | 0 <= i < |rows| && rows[i].retryOf.Some? :: IndexOf(rows, rows[i].retryOf.value) < i
  }

  /** The retry id names no row, or one after the command retried. */
  predicate After(rows: seq<Command>, id: string, retryId: string) {
    IndexOf(rows, id) < IndexOf(rows, retryId)
  }

  /** Marking keeps the order exactly when the row marked comes after the
      command retried. */
  lemma MarkOrder(rows: seq<Command>, retryId: string, previous: Command)
    requires UniqueIds(rows) && Backward(rows) && IndexOf(rows, previous.id) < |rows| && IndexOf(rows, retryId) < |rows|
    ensures Backward(Mark(rows, retryId, previous).rows) <==> After(rows, previous.id, retryId)
  {
    hide UniqueIds;
    var i := IndexOf(rows, retryId);
    var rows' := Mark(rows, retryId, previous).rows;
    forall id ensures IndexOf(rows', id) == IndexOf(rows, id) { SameIndex(rows, rows', id); }
    assert rows'[i].retryOf == Some(previous.id);
    forall j | 0 <= j < |rows'| && rows'[j].retryOf.Some? && j != i
      ensures IndexOf(rows', rows'[j].retryOf.value) < j
    {
      assert rows'[j] == rows[j];
    }
  }

  lemma {:induction false} ClimbDescends(rows: seq<Command>, i: nat, n: nat)
    requires Backward(rows) && i < |rows| && n > 0 && Climb(rows, i, n).Some?
    ensures Climb(rows, i, n).value < i
    decreases n
  {
    if n > 1 { ClimbDescends(rows, Up(rows, i).value, n - 1); }
  }

  lemma BackwardEnds(rows: seq<Command>)
    requires Backward(rows)
    ensures !Cyclic(rows)
  {
    hide Backward;
    if Cyclic(rows) {
      var i, n :| OnCycle(rows, i, n);
      ClimbDescends(rows, i, n);
    }
  }

  lemma AfterStays(rows: seq<Command>, rows': seq<Command>, id: string, retryId: string)
    requires SameIds(rows, rows') && IndexOf(rows, id) < |rows|
    ensures IndexOf(rows', id) == IndexOf(rows, id)
    ensures After(rows, id, retryId) ==> After(rows', id, retryId)
  {
    IndexIs(rows', id, IndexOf(rows, id));
    var k := IndexOf(rows, retryId);
    if k < |rows| { IndexIs(rows', retryId, k); }
  }

  /** The retries under way name commands on file, before their retry ids. */
  ghost predicate Ordered(st: State) {
    forall r | r in st.retries :: r.Over? || (IndexOf(st.rows, r.previous.id) < |st.rows| && After(st.rows, r.previous.id, r.retryId))
  }

  lemma OrderedStays(st: State, rows': seq<Command>)
    requires Ordered(st) && SameIds(st.rows, rows')
    ensures Ordered(st.(rows := rows'))
  {
    forall r | r in st.retries
      ensures r.Over? || (IndexOf(rows', r.previous.id) < |rows'| && After(rows', r.previous.id, r.retryId))
    {
      if !r.Over? { AfterStays(st.rows, rows', r.previous.id, r.retryId); }
    }
  }

  lemma BackwardStays(rows: seq<Command>, rows': seq<Command>)
    requires Backward(rows) && SameIds(rows, rows')
    requires forall i | 0 <= i < |rows'| :: rows'[i].retryOf == if i < |rows| then rows[i].retryOf else None
    ensures Backward(rows')
  {
    forall i | 0 <= i < |rows'| && rows'[i].retryOf.Some? ensures IndexOf(rows', rows'[i].retryOf.value) < i {
      AfterStays(rows, rows', rows[i].retryOf.value, "");
    }
  }

  lemma OrderStep(st: State, limit: nat, e: Event)
    requires UniqueIds(st.rows) && Backward(st.rows) && Ordered(st)
    requires e.RetryRead? ==> After(st.rows, e.id, e.retryId)
    ensures Backward(Next(st, limit, e).rows) && Ordered(Next(st, limit, e))
  {
    hide UniqueIds, Backward, Ordered, Next, After, SameIds;
    NextIds(st, limit, e);
    OrderedStays(st, Next(st, limit, e).rows);
    RetriesStayOrdered(st, limit, e);
    RowsStayBackward(st, limit, e);
  }

  lemma RowsStayBackward(st: State, limit: nat, e: Event)
    requires UniqueIds(st.rows) && Backward(st.rows) && Ordered(st)
    ensures Backward(Next(st, limit, e).rows)
  {
    hide UniqueIds, Backward, After, Enqueue, Update, Cancel;
    NextIds(st, limit, e);
    if e.RetryMark? {
      if e.k < |st.retries| && st.retries[e.k].Enqueued? {
        var r := st.retries[e.k];
        assert r in st.retries;
        if IndexOf(st.rows, r.retryId) < |st.rows| { MarkOrder(st.rows, r.retryId, r.previous); }
      }
    } else {
      BackwardStays(st.rows, Next(st, limit, e).rows);
    }
  }

  lemma RetriesStayOrdered(st: State, limit: nat, e: Event)
    requires Ordered(st.(rows := Next(st, limit, e).rows)) && Ordered(st)
    requires e.RetryRead? ==> After(st.rows, e.id, e.retryId)
    ensures Ordered(Next(st, limit, e))
  {
    hide After, Enqueue, Update, Cancel, Mark;
    var st' := Next(st, limit, e);
    forall r | r in st'.retries
      ensures r.Over? || (IndexOf(st'.rows, r.previous.id) < |st'.rows| && After(st'.rows, r.previous.id, r.retryId))
    {
      var i :| 0 <= i < |st'.retries| && st'.retries[i] == r;
      if i < |st.retries| { assert st.retries[i] in st.retries; }
    }
  }

  /** Each retry is begun under an id that names no row, or a later one. */
  predicate BegunInOrder(st: State, limit: nat, events: seq<Event>)
    decreases |events|
  {
    events != [] ==>
      && (events[0].RetryRead? ==> After(st.rows, events[0].id, events[0].retryId))
      && BegunInOrder(Next(st, limit, events[0]), limit, events[1..])
  }

  /** Then over every interleaving each retry names an earlier row, so there is
      no cycle of retries. It is enough, and can be checked before each retry is
      begun; it is not needed. */
  lemma {:induction false} RetriesNeverCycle(st: State, limit: nat, events: seq<Event>)
    requires UniqueIds(st.rows) && Backward(st.rows) && Ordered(st) && BegunInOrder(st, limit, events)
    ensures Backward(Run(st, limit, events).rows) && !Cyclic(Run(st, limit, events).rows)
    decreases |events|
  {
    hide Next, Backward, Cyclic, Ordered, UniqueIds, After;
    if events == [] {
      BackwardEnds(st.rows);
    } else {
      OrderStep(st, limit, events[0]);
      NextFollows(st, limit, events[0]);
      RetriesNeverCycle(Next(st, limit, events[0]), limit, events[1..]);
    }
  }

  /** A command retried under its own id becomes a retry of itself. */
  lemma RetryOfItself(limit: nat, c: Command, made: string, now: string)
    requires c.status == Failed && c.retryOf == None && NoneBlank([c.requirement, c.session, c.message])
    requires |c.message| <= limit && IsIdentifier(c.id)
    ensures var st := State([c], []);
            Run(st, limit, [RetryRead(c.id, c.id), RetryEnqueue(0, made, now), RetryMark(0)]).rows
            == [c.(attempt := c.attempt + 1, retryOf := Some(c.id))]
    ensures !Cyclic([c]) && Cyclic([c.(attempt := c.attempt + 1, retryOf := Some(c.id))])
  {
    var events := [RetryRead(c.id, c.id), RetryEnqueue(0, made, now), RetryMark(0)];
    var s1 := Next(State([c], []), limit, events[0]);
    var s2 := Next(s1, limit, events[1]);
    assert s1 == State([c], [Read(c, c.id)]);
    assert s2 == State([c], [Enqueued(c, c.id)]);
    assert Run(s2, limit, [events[2]]) == Next(s2, limit, events[2]) by { assert [events[2]][1..] == []; }
    assert events[1..] == [events[1], events[2]] && events[1..][1..] == [events[2]];
    var end := [c.(attempt := c.attempt + 1, retryOf := Some(c.id))];
    assert IndexOf(end, end[0].retryOf.value) == 0;
    assert Climb(end, 0, 1) == Climb(end, 0, 0);
    assert OnCycle(end, 0, 1);
    BackwardEnds([c]);
  }
}
