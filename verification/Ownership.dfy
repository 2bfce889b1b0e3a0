/** Which engine may execute a task: a ledger from every alias of a task card to
    the requirement and node of the second engine that own it, beside the books
    of the first engine's dispatcher. Claims are only ever added. */
module Ownership {
  import opened Utf8

  /** A claim of the second engine; the aliases as the sorted list on file. */
  datatype Claim = Claim(requirement: string, node: string, aliases: seq<string>)

  type Ledger = map<string, Claim>

  datatype Task = Task(id: string, raw: Option<string>, bound: bool)

  datatype Binding = Binding(node: string, card: string)

  // ----- reading the ledger -----

  predicate WellFormed(key: string, c: Claim) {
    && c.requirement != "" && c.node != "" && key in c.aliases && forall a | a in c.aliases :: a != ""
  }

  /** Every alias of a claim leads to the same claim. */
  predicate Closed(l: Ledger) {
    forall key | key in l :: key in l[key].aliases && forall a | a in l[key].aliases :: a in l && l[a] == l[key]
  }

  /** _claims: anything else is refused as corrupt. */
  predicate Readable(l: Ledger) {
    (forall key | key in l :: WellFormed(key, l[key])) && Closed(l)
  }

  /** The names a task goes by. */
  predicate HasName(t: Task, name: string) {
    name != "" && (name == t.id || t.raw == Some(name))
  }

  function NamesOf(t: Task): (names: set<string>)
    ensures forall n :: n in names <==> HasName(t, n)
  {
    var all := if t.raw.Some? then {t.id, t.raw.value} else {t.id};
    set n | n in all && n != ""
  }

  /** require_v1: the first engine may run a task no alias of which is claimed. */
  predicate AllowsV1(l: Ledger, t: Task) {
    Readable(l) && forall n | n in NamesOf(t) :: n !in l
  }

  /** require_v2: every name of the task is claimed by this node. */
  predicate AllowsV2(l: Ledger, requirement: string, node: string, t: Task) {
    Readable(l) && forall n | n in NamesOf(t) :: n in l && l[n].requirement == requirement && l[n].node == node
  }

  // ----- the first engine's books -----

  datatype Result = Dispatching | CancelRequested | Ended(outcome: string)

  /** What the dispatcher noted of a task, by its raw id or else its id. */
  datatype Entry = Entry(task: Option<string>, raw: Option<string>, result: Option<Result>)

  type Books = map<string, Entry>

  datatype Session = Session(active: bool, tasks: seq<string>)

  /** _task_key */
  function KeyOf(t: Task): string {
    if t.raw.Some? && t.raw.value != "" then t.raw.value else t.id
  }

  predicate Named(key: string, e: Entry, name: string) {
    name == key || e.task == Some(name) || e.raw == Some(name)
  }

  /** Claimed, being run, or of a fate unknown. */
  predicate Busy(e: Entry) {
    e.result.None? || e.result.value.Dispatching? || e.result.value.CancelRequested?
  }

  /** _require_legacy_idle: no busy entry and no session at work knows the task
      by any of its aliases. */
  predicate LegacyIdle(books: Books, sessions: seq<Session>, aliases: seq<string>) {
    && (forall key | key in books && Busy(books[key]) :: forall a | a in aliases :: !Named(key, books[key], a))
    && (forall s | s in sessions && s.active :: forall a | a in aliases :: a !in s.tasks)
  }

  // ----- preparing claims -----

  function Before(a: string, b: string): bool {
    if a == [] then b != [] else b != [] && (a[0] < b[0] || (a[0] == b[0] && Before(a[1..], b[1..])))
  }

  /** sorted({a, b}) */
  function SortedPair(a: string, b: string): (s: seq<string>)
    ensures forall x :: x in s <==> x == a || x == b
  {
    if a == b then [a] else if Before(a, b) then [a, b] else [b, a]
  }

  function AliasesOf(t: Task): seq<string> {
    SortedPair(t.id, if t.raw.Some? && t.raw.value != "" then t.raw.value else t.id)
  }

  predicate Identifies(t: Task, card: string) {
    (card == t.id || t.raw == Some(card)) && !t.bound
  }

  /** What the provider said of each card; None is an error. */
  type Provider = map<string, Task>

  function Prepared(requirement: string, missing: seq<Binding>, provider: Provider): (claims: Option<seq<Claim>>)
    ensures claims.Some? ==> |claims.value| == |missing|
    decreases |missing|
  {
    if missing == [] then Some([])
    else
      var b := missing[|missing| - 1];
      var rest := Prepared(requirement, missing[..|missing| - 1], provider);
      if rest.None? || b.card !in provider || !Identifies(provider[b.card], b.card) then None
      else Some(rest.value + [Claim(requirement, b.node, AliasesOf(provider[b.card]))])
  }

  // ----- committing claims -----

  function PutAliases(l: Ledger, c: Claim, aliases: seq<string>): Option<Ledger>
    decreases |aliases|
  {
    if aliases == [] then Some(l)
    else
      var rest := PutAliases(l, c, aliases[..|aliases| - 1]);
      var a := aliases[|aliases| - 1];
      if rest.None? || (a in rest.value && rest.value[a] != c) then None else Some(rest.value[a := c])
  }

  /** The second lock: all claims or none, each only if the first engine's books
      and the requirement's sessions have nothing of it under way. */
  function Commit(l: Ledger, claims: seq<Claim>, books: Books, sessions: seq<Session>): Option<Ledger>
    decreases |claims|
  {
    if claims == [] then Some(l)
    else
      var n := |claims| - 1;
      var rest := Commit(l, claims[..n], books, sessions);
      if rest.None? || !LegacyIdle(books, sessions, claims[n].aliases) then None else PutAliases(rest.value, claims[n], claims[n].aliases)
  }

  // ----- closure -----

  predicate Extends(l: Ledger, l': Ledger) {
    forall a | a in l :: a in l' && l'[a] == l[a]
  }

  lemma {:induction false} PutFacts(l: Ledger, c: Claim, aliases: seq<string>)
    requires PutAliases(l, c, aliases).Some?
    ensures var l' := PutAliases(l, c, aliases).value;
            && Extends(l, l')
            && (forall a | a in aliases :: a in l' && l'[a] == c)
            && (forall a | a in l' :: (a in l && l'[a] == l[a]) || (a in aliases && l'[a] == c))
    decreases |aliases|
  {
    if aliases != [] { PutFacts(l, c, aliases[..|aliases| - 1]); }
  }

  /** Putting one claim keeps the ledger closed. */
  lemma PutCloses(l: Ledger, c: Claim)
    requires Closed(l) && PutAliases(l, c, c.aliases).Some?
    ensures Closed(PutAliases(l, c, c.aliases).value)
  {
    PutFacts(l, c, c.aliases);
    var l' := PutAliases(l, c, c.aliases).value;
    forall key | key in l' ensures key in l'[key].aliases && forall a | a in l'[key].aliases :: a in l' && l'[a] == l'[key] {
      if !(key in c.aliases && l'[key] == c) {
        assert key in l && l'[key] == l[key];
        forall a | a in l[key].aliases ensures a in l' && l'[a] == l[key] { assert a in l && l[a] == l[key]; }
      }
    }
  }

  /** A commit keeps the ledger closed, changes no owner, drops no alias, and
      leaves every alias of every claim of the plan with that claim. */
  lemma {:induction false} CommitKeepsClosed(l: Ledger, claims: seq<Claim>, books: Books, sessions: seq<Session>)
    requires Closed(l) && Commit(l, claims, books, sessions).Some?
    ensures var l' := Commit(l, claims, books, sessions).value;
            && Closed(l') && Extends(l, l')
            && (forall c | c in claims :: forall a | a in c.aliases :: a in l' && l'[a] == c)
            && (forall a | a in l' :: (a in l && l'[a] == l[a]) || exists c | c in claims :: a in c.aliases && l'[a] == c)
    decreases |claims|
  {
    if claims != [] {
      var n := |claims| - 1;
      CommitKeepsClosed(l, claims[..n], books, sessions);
      var mid := Commit(l, claims[..n], books, sessions).value;
      PutCloses(mid, claims[n]);
      PutFacts(mid, claims[n], claims[n].aliases);
      var l' := Commit(l, claims, books, sessions).value;
      forall c | c in claims ensures forall a | a in c.aliases :: a in l' && l'[a] == c {
        if c !in claims[..n] { assert c == claims[n]; }
      }
      forall a | a in l' ensures (a in l && l'[a] == l[a]) || exists c | c in claims :: a in c.aliases && l'[a] == c {
        if a in claims[n].aliases && l'[a] == claims[n] {
          assert claims[n] in claims;
        } else if !(a in l && l'[a] == l[a]) {
          var c :| c in claims[..n] && a in c.aliases && mid[a] == c;
          assert c in claims;
        }
      }
    }
  }

  /** Every claim of a plan comes from a card the provider knew and nobody was
      bound to, and carries every name of that card. */
  lemma {:induction false} PreparedFromFree(requirement: string, missing: seq<Binding>, provider: Provider, i: nat)
    requires Prepared(requirement, missing, provider).Some? && i < |missing|
    ensures var c := Prepared(requirement, missing, provider).value[i];
            missing[i].card in provider && Identifies(provider[missing[i].card], missing[i].card)
            && c == Claim(requirement, missing[i].node, AliasesOf(provider[missing[i].card]))
            && forall n | HasName(provider[missing[i].card], n) :: n in c.aliases
    decreases |missing|
  {
    hide AliasesOf;
    if i < |missing| - 1 {
      PreparedFromFree(requirement, missing[..|missing| - 1], provider, i);
    } else {
      NamesAreAliases(provider[missing[i].card]);
    }
  }

  lemma NamesAreAliases(t: Task)
    ensures forall n | HasName(t, n) :: n in AliasesOf(t)
  {
  }

  /** Nothing is committed of which the first engine's books or a session of the
      requirement have something under way. */
  lemma {:induction false} CommittedWereIdle(l: Ledger, claims: seq<Claim>, books: Books, sessions: seq<Session>)
    requires Commit(l, claims, books, sessions).Some?
    ensures forall c | c in claims :: LegacyIdle(books, sessions, c.aliases)
    decreases |claims|
  {
    hide LegacyIdle;
    if claims != [] {
      var n := |claims| - 1;
      CommittedWereIdle(l, claims[..n], books, sessions);
      assert claims == claims[..n] + [claims[n]];
    }
  }

  // ----- when the ledger stays readable -----

  predicate Proper(c: Claim) {
    c.requirement != "" && c.node != "" && forall a | a in c.aliases :: a != ""
  }

  /** The next reader accepts the ledger exactly when every claim that went in
      has a requirement, a node and no empty alias; a card whose own id is empty
      locks everyone out. */
  lemma CommitReadable(l: Ledger, claims: seq<Claim>, books: Books, sessions: seq<Session>)
    requires Readable(l) && Commit(l, claims, books, sessions).Some?
    requires forall c | c in claims :: c.aliases != []
    ensures Readable(Commit(l, claims, books, sessions).value) <==> forall c | c in claims :: Proper(c)
  {
    CommitKeepsClosed(l, claims, books, sessions);
    var l' := Commit(l, claims, books, sessions).value;
    if Readable(l') {
      forall c | c in claims ensures Proper(c) {
        var a := c.aliases[0];
        assert a in c.aliases && a in l' && l'[a] == c && WellFormed(a, l'[a]);
      }
    }
    if forall c | c in claims :: Proper(c) {
      forall key | key in l' ensures WellFormed(key, l'[key]) {
        if key in l && l'[key] == l[key] { assert WellFormed(key, l[key]); }
      }
    }
  }

  // ----- plans, interleaved -----

  datatype Request = Request(requirement: string, tasks: set<string>, bindings: seq<Binding>)

  /** The checks on the request itself; the bindings are a dict, so its nodes
      are distinct. */
  predicate ValidRequest(r: Request, planRequirement: string) {
    && (forall b | b in r.bindings :: b.node != "" && b.card != "" && b.node in r.tasks)
    && (forall i, j | 0 <= i < j < |r.bindings| :: r.bindings[i].card != r.bindings[j].card && r.bindings[i].node != r.bindings[j].node)
    && r.requirement == planRequirement
  }

  predicate OwnedBy(l: Ledger, card: string, requirement: string, node: string) {
    card in l && l[card].requirement == requirement && l[card].node == node
  }

  /** The first lock: no card of the plan belongs to another node. */
  predicate NoneTaken(l: Ledger, r: Request) {
    Readable(l) && forall b | b in r.bindings :: b.card in l ==> OwnedBy(l, b.card, r.requirement, b.node)
  }

  function Missing(l: Ledger, bindings: seq<Binding>): (ms: seq<Binding>)
    ensures forall b :: b in ms <==> b in bindings && b.card !in l
    decreases |bindings|
  {
    if bindings == [] then []
    else
      var rest := Missing(l, bindings[..|bindings| - 1]);
      if bindings[|bindings| - 1].card in l then rest else rest + [bindings[|bindings| - 1]]
  }

  /** A plan between its two locks, or done. */
  datatype Plan = Pending(request: Request, claims: seq<Claim>) | Done(request: Request) | Dropped

  /** The ledger and the plans, and of the first engine: its books, the sessions
      by requirement, and the task its one dispatcher is running. */
  datatype State = State(
    ledger: Ledger, plans: seq<Plan>, books: Books, sessions: map<string, seq<Session>>, running: Option<Task>)

  datatype Event =
    | Look(request: Request, planRequirement: string, provider: Option<Provider>)
    | Settle(k: nat)
    | Dispatch(task: Task)
    | Remember(seen: Task, outcome: string)
    | Halt
    | CancelQueued(task: Task)
    | Delegate(task: Task)
    | SetSessions(requirement: string, open: seq<Session>)

  function FirstHalf(l: Ledger, r: Request, planRequirement: string, provider: Option<Provider>): Plan {
    if !ValidRequest(r, planRequirement) then Dropped
    else if r.bindings == [] then Done(r)
    else if !NoneTaken(l, r) then Dropped
    else
      var missing := Missing(l, r.bindings);
      if missing == [] then Done(r)
      else if provider.None? then Dropped
      else
        var claims := Prepared(r.requirement, missing, provider.value);
        if claims.None? then Dropped else Pending(r, claims.value)
  }

  function Noted(t: Task, result: Result): Entry {
    Entry(Some(t.id), t.raw, Some(result))
  }

  /** _claim goes through: nothing runs, no name is claimed, no cancellation is
      asked for. */
  predicate Starts(st: State, t: Task) {
    && st.running.None? && AllowsV1(st.ledger, t)
    && !(KeyOf(t) in st.books && st.books[KeyOf(t)].result == Some(CancelRequested))
  }

  /** A delegation notes the card it had created as dispatched, without asking
      the ledger. */
  function Next(st: State, e: Event): State {
    match e
    case Look(r, planRequirement, provider) => st.(plans := st.plans + [FirstHalf(st.ledger, r, planRequirement, provider)])
    case Settle(k) =>
      if k < |st.plans| && st.plans[k].Pending? then
        var p := st.plans[k];
        var l' := if Readable(st.ledger) && p.request.requirement in st.sessions
                  then Commit(st.ledger, p.claims, st.books, st.sessions[p.request.requirement]) else None;
        if l'.Some? then st.(ledger := l'.value, plans := st.plans[k := Done(p.request)]) else st.(plans := st.plans[k := Dropped])
      else st
    case Dispatch(t) =>
      if Starts(st, t) then st.(books := st.books[KeyOf(t) := Noted(t, Dispatching)], running := Some(t)) else st
    case Delegate(t) => st.(books := st.books[KeyOf(t) := Noted(t, Dispatching)])
    case Remember(seen, outcome) => st.(books := st.books[KeyOf(seen) := Noted(seen, Ended(outcome))], running := None)
    case Halt => st.(running := None)
    case CancelQueued(t) =>
      if t.bound || (KeyOf(t) in st.books && st.books[KeyOf(t)].result == Some(Dispatching)) then st
      else st.(books := st.books[KeyOf(t) := Noted(t, CancelRequested)])
    case SetSessions(r, open) => st.(sessions := st.sessions[r := open])
  }

  function Run(st: State, events: seq<Event>): State
    decreases |events|
  {
    if events == [] then st else Run(Next(st, events[0]), events[1..])
  }

  /** Nothing claimed yet, whatever the first engine has done before. */
  function Unclaimed(books: Books, sessions: map<string, seq<Session>>): State {
    State(map[], [], books, sessions, None)
  }

  /** Every binding is owned already or by one of the claims under way. */
  predicate Covers(l: Ledger, r: Request, claims: seq<Claim>) {
    forall b | b in r.bindings ::
      OwnedBy(l, b.card, r.requirement, b.node)
      || exists c | c in claims :: b.card in c.aliases && c.requirement == r.requirement && c.node == b.node
  }

  predicate PlanSound(l: Ledger, p: Plan) {
    match p
    case Pending(r, claims) => Covers(l, r, claims)
    case Done(r) => forall b | b in r.bindings :: OwnedBy(l, b.card, r.requirement, b.node)
    case Dropped => true
  }

  /** The note under the key of the task being run says dispatched, and the key
      is not claimed. */
  predicate KeyHeld(st: State) {
    st.running.Some? ==>
      var key := KeyOf(st.running.value);
      key in st.books && st.books[key].result == Some(Dispatching) && key !in st.ledger
  }

  predicate Inv(st: State) {
    Closed(st.ledger) && (forall i | 0 <= i < |st.plans| :: PlanSound(st.ledger, st.plans[i])) && KeyHeld(st)
  }

  /** The note is of the very task being run, and none of its names is claimed. */
  predicate RunHeld(st: State) {
    st.running.Some? ==>
      var t := st.running.value;
      KeyOf(t) in st.books && st.books[KeyOf(t)] == Noted(t, Dispatching) && forall n | n in NamesOf(t) :: n !in st.ledger
  }

  lemma {:induction false} PreparedClaims(requirement: string, missing: seq<Binding>, provider: Provider)
    requires Prepared(requirement, missing, provider).Some? && forall b | b in missing :: b.card != ""
    ensures forall b | b in missing ::
              exists c | c in Prepared(requirement, missing, provider).value ::
                b.card in c.aliases && c.requirement == requirement && c.node == b.node
    decreases |missing|
  {
    if missing != [] {
      var front, last := missing[..|missing| - 1], missing[|missing| - 1];
      PreparedClaims(requirement, front, provider);
      var claims := Prepared(requirement, missing, provider).value;
      forall b | b in missing
        ensures exists c | c in claims :: b.card in c.aliases && c.requirement == requirement && c.node == b.node
      {
        if b in front {
          var c :| c in Prepared(requirement, front, provider).value && b.card in c.aliases && c.requirement == requirement && c.node == b.node;
          assert c in claims;
        } else {
          var c := claims[|claims| - 1];
          CardIsAlias(provider[b.card], b.card);
          assert b == last && c in claims && b.card in c.aliases;
        }
      }
    }
  }

  lemma CardIsAlias(t: Task, card: string)
    requires Identifies(t, card)
    ensures card in AliasesOf(t) || card == ""
  {
  }

  lemma LookSound(l: Ledger, r: Request, planRequirement: string, provider: Option<Provider>)
    ensures PlanSound(l, FirstHalf(l, r, planRequirement, provider))
  {
    hide Readable;
    var p := FirstHalf(l, r, planRequirement, provider);
    var missing := Missing(l, r.bindings);
    if p.Pending? {
      PreparedClaims(r.requirement, missing, provider.value);
      forall b | b in r.bindings && b.card !in l
        ensures exists c | c in p.claims :: b.card in c.aliases && c.requirement == r.requirement && c.node == b.node
      {
        assert b in missing;
      }
    } else if p.Done? {
      forall b | b in r.bindings ensures OwnedBy(l, b.card, r.requirement, b.node) { assert b !in missing; }
    }
  }

  lemma SoundStays(l: Ledger, l': Ledger, p: Plan)
    requires PlanSound(l, p) && Extends(l, l')
    ensures PlanSound(l', p)
  {
    match p
    case Pending(r, claims) =>
      forall b | b in r.bindings
        ensures OwnedBy(l', b.card, r.requirement, b.node)
                || exists c | c in claims :: b.card in c.aliases && c.requirement == r.requirement && c.node == b.node
      {
      }
    case _ =>
  }

  lemma NextKeeps(st: State, e: Event)
    requires Inv(st)
    ensures Inv(Next(st, e)) && Extends(st.ledger, Next(st, e).ledger)
  {
    hide Readable, PlanSound, FirstHalf, Closed, AllowsV1;
    match e {
      case Look(r, planRequirement, provider) => LookSound(st.ledger, r, planRequirement, provider);
      case Settle(k) => if k < |st.plans| && st.plans[k].Pending? { SettleKeeps(st, k); }
      case Dispatch(t) => if AllowsV1(st.ledger, t) { AllowedIsFree(st.ledger, t); }
      case Remember(_, _) =>
      case Halt =>
      case CancelQueued(_) =>
      case Delegate(_) =>
      case SetSessions(_, _) =>
    }
  }

  /** Nothing a task is noted under is claimed when the first engine may run it. */
  lemma AllowedIsFree(l: Ledger, t: Task)
    requires AllowsV1(l, t)
    ensures forall a | a in l :: !Named(KeyOf(t), Noted(t, Dispatching), a)
  {
    forall a | a in l ensures !Named(KeyOf(t), Noted(t, Dispatching), a) {
      assert WellFormed(a, l[a]);
      assert a !in NamesOf(t);
    }
  }

  /** What a commit adds is nothing a busy entry is noted under. */
  lemma CommitApart(l: Ledger, claims: seq<Claim>, books: Books, sessions: seq<Session>, key: string, a: string)
    requires Closed(l) && Commit(l, claims, books, sessions).Some? && key in books && Busy(books[key])
    requires a in Commit(l, claims, books, sessions).value
    ensures a in l || !Named(key, books[key], a)
  {
    hide Closed, Busy, Named;
    CommitKeepsClosed(l, claims, books, sessions);
    CommittedWereIdle(l, claims, books, sessions);
    var l' := Commit(l, claims, books, sessions).value;
    if !(a in l && l'[a] == l[a]) {
      var c :| c in claims && a in c.aliases && l'[a] == c;
      assert LegacyIdle(books, sessions, c.aliases);
    }
  }

  /** The same for one step of a run, whatever it is. */
  lemma StepApart(st: State, e: Event, key: string, a: string)
    requires Inv(st) && key in st.books && Busy(st.books[key]) && a in Next(st, e).ledger
    ensures a in st.ledger || !Named(key, st.books[key], a)
  {
    hide Readable, PlanSound, FirstHalf, Closed, Busy, Named, AllowsV1;
    if e.Settle? && e.k < |st.plans| && st.plans[e.k].Pending? && Next(st, e).ledger != st.ledger {
      var p := st.plans[e.k];
      CommitApart(st.ledger, p.claims, st.books, st.sessions[p.request.requirement], key, a);
    }
  }

  lemma SettleKeeps(st: State, k: nat)
    requires Inv(st) && k < |st.plans| && st.plans[k].Pending?
    ensures Inv(Next(st, Settle(k))) && Extends(st.ledger, Next(st, Settle(k)).ledger)
  {
    hide Readable, PlanSound, FirstHalf, Closed;
    var st', p := Next(st, Settle(k)), st.plans[k];
    if st'.plans[k].Done? {
      CommitKeepsClosed(st.ledger, p.claims, st.books, st.sessions[p.request.requirement]);
      SettledOwns(st.ledger, st'.ledger, p);
      forall i | 0 <= i < |st'.plans| ensures PlanSound(st'.ledger, st'.plans[i]) {
        if i != k { SoundStays(st.ledger, st'.ledger, st.plans[i]); }
      }
      if st.running.Some? && KeyOf(st.running.value) in st'.ledger {
        StepApart(st, Settle(k), KeyOf(st.running.value), KeyOf(st.running.value));
      }
    } else {
      DroppedSound(st.ledger);
    }
  }

  lemma DroppedSound(l: Ledger)
    ensures PlanSound(l, Dropped)
  {
  }

  lemma SettledOwns(l: Ledger, l': Ledger, p: Plan)
    requires p.Pending? && PlanSound(l, p) && Extends(l, l')
    requires forall c | c in p.claims :: forall a | a in c.aliases :: a in l' && l'[a] == c
    ensures PlanSound(l', Done(p.request))
  {
    forall b | b in p.request.bindings ensures OwnedBy(l', b.card, p.request.requirement, b.node) {
      if !OwnedBy(l, b.card, p.request.requirement, b.node) {
        var c :| c in p.claims && b.card in c.aliases && c.requirement == p.request.requirement && c.node == b.node;
        assert l'[b.card] == c;
      }
    }
  }

  // ----- every run -----

  lemma {:induction false} RunKeeps(st: State, events: seq<Event>)
    requires Inv(st)
    ensures Inv(Run(st, events)) && Extends(st.ledger, Run(st, events).ledger)
    decreases |events|
  {
    hide Inv, Next;
    if events != [] {
      NextKeeps(st, events[0]);
      RunKeeps(Next(st, events[0]), events[1..]);
    }
  }

  lemma UnclaimedInv(books: Books, sessions: map<string, seq<Session>>)
    ensures Inv(Unclaimed(books, sessions))
  {
  }

  /** Over every interleaving of plans and of the first engine's doings: each
      alias of a claim leads to the same record, no alias changes owner or
      disappears, and a plan that was claimed keeps each of its cards for its own
      requirement and node. */
  lemma OwnershipIsForGood(st: State, before: seq<Event>, after: seq<Event>, k: nat)
    requires Inv(st) && k < |Run(st, before).plans| && Run(st, before).plans[k].Done?
    ensures var s, s' := Run(st, before), Run(Run(st, before), after);
            && Closed(s'.ledger) && Extends(s.ledger, s'.ledger)
            && forall b | b in s.plans[k].request.bindings ::
                 OwnedBy(s'.ledger, b.card, s.plans[k].request.requirement, b.node)
  {
    hide Run, Closed, KeyHeld;
    RunKeeps(st, before);
    RunKeeps(Run(st, before), after);
    var p := Run(st, before).plans[k];
    assert PlanSound(Run(st, before).ledger, p);
    SoundStays(Run(st, before).ledger, Run(Run(st, before), after).ledger, p);
  }

  /** From the moment a card is claimed, the first engine is refused every task
      that goes by any of the claim's aliases, and the second engine may run it
      for no other node. */
  lemma ClaimedForSecondEngineOnly(st: State, before: seq<Event>, after: seq<Event>, card: string, alias: string, t: Task)
    requires Inv(st) && card in Run(st, before).ledger && alias in Run(st, before).ledger[card].aliases && HasName(t, alias)
    ensures var l, l' := Run(st, before).ledger, Run(Run(st, before), after).ledger;
            && !AllowsV1(l', t)
            && forall requirement, node | AllowsV2(l', requirement, node, t) ::
                 requirement == l[card].requirement && node == l[card].node
  {
    hide Run, Readable, KeyHeld, PlanSound;
    RunKeeps(st, before);
    RunKeeps(Run(st, before), after);
    var l, l' := Run(st, before).ledger, Run(Run(st, before), after).ledger;
    assert alias in l && l[alias] == l[card] && l'[alias] == l[card];
    assert alias in NamesOf(t);
  }

  // ----- the first engine beside the second -----

  /** A name the note of a card carries is claimed. */
  predicate Overlaps(l: Ledger, key: string, e: Entry) {
    exists a | a in l :: Named(key, e, a)
  }

  /** Whether the note that says dispatched under a key was last written by a
      delegation of a card that was claimed by then. */
  function Late(st: State, events: seq<Event>, key: string, late: bool): bool
    decreases |events|
  {
    if events == [] then late
    else
      var e := events[0];
      Late(Next(st, e), events[1..], key,
           if e.Delegate? && KeyOf(e.task) == key then Overlaps(st.ledger, key, Noted(e.task, Dispatching))
           else if e.Dispatch? && KeyOf(e.task) == key && Starts(st, e.task) then false
           else late)
  }

  predicate Dispatched(books: Books, key: string) {
    key in books && books[key].result == Some(Dispatching)
  }

  lemma {:induction false} LateTells(st: State, events: seq<Event>, key: string, late: bool)
    requires Inv(st) && (Dispatched(st.books, key) ==> (late <==> Overlaps(st.ledger, key, st.books[key])))
    ensures var end := Run(st, events);
            Dispatched(end.books, key) ==> (Late(st, events, key, late) <==> Overlaps(end.ledger, key, end.books[key]))
    decreases |events|
  {
    hide Inv, Next, Overlaps, Starts, Dispatched;
    if events != [] {
      var e, st' := events[0], Next(st, events[0]);
      NextKeeps(st, e);
      var late' := if e.Delegate? && KeyOf(e.task) == key then Overlaps(st.ledger, key, Noted(e.task, Dispatching))
                   else if e.Dispatch? && KeyOf(e.task) == key && Starts(st, e.task) then false
                   else late;
      LateStep(st, e, key, late);
      LateTells(st', events[1..], key, late');
    }
  }

  lemma LateStep(st: State, e: Event, key: string, late: bool)
    requires Inv(st) && (Dispatched(st.books, key) ==> (late <==> Overlaps(st.ledger, key, st.books[key])))
    ensures var late' := if e.Delegate? && KeyOf(e.task) == key then Overlaps(st.ledger, key, Noted(e.task, Dispatching))
                         else if e.Dispatch? && KeyOf(e.task) == key && Starts(st, e.task) then false
                         else late;
            var st' := Next(st, e);
            Dispatched(st'.books, key) ==> (late' <==> Overlaps(st'.ledger, key, st'.books[key]))
  {
    hide Inv, AllowsV1, Readable, Named, FirstHalf;
    var st' := Next(st, e);
    if e.Dispatch? && KeyOf(e.task) == key && Starts(st, e.task) {
      AllowedIsFree(st.ledger, e.task);
    } else if e.Settle? && Dispatched(st.books, key) {
      NextKeeps(st, e);
      forall a | a in st'.ledger && Named(key, st.books[key], a) ensures a in st.ledger { StepApart(st, e, key, a); }
    }
  }

  /** Over every interleaving, a note that says dispatched bears no claimed name,
      unless it was written by a delegation when a name of its card was claimed
      already: a delegated card is apart exactly when it was so at that moment. */
  lemma NotesAreApart(books: Books, sessions: map<string, seq<Session>>, events: seq<Event>, key: string)
    requires Dispatched(Run(Unclaimed(books, sessions), events).books, key)
    ensures var st := Run(Unclaimed(books, sessions), events);
            Overlaps(st.ledger, key, st.books[key]) <==> Late(Unclaimed(books, sessions), events, key, false)
  {
    hide Run, Inv, Late;
    UnclaimedInv(books, sessions);
    LateTells(Unclaimed(books, sessions), events, key, false);
  }

  /** A delegation whose card has the key of another card that is being run. */
  predicate Displaces(st: State, e: Event) {
    && e.Delegate? && st.running.Some? && KeyOf(e.task) == KeyOf(st.running.value)
    && Noted(e.task, Dispatching) != Noted(st.running.value, Dispatching)
  }

  /** A card that is created has a key of its own. */
  predicate OwnKeys(st: State, events: seq<Event>)
    decreases |events|
  {
    events != [] ==> !Displaces(st, events[0]) && OwnKeys(Next(st, events[0]), events[1..])
  }

  lemma NextHolds(st: State, e: Event)
    requires Inv(st) && RunHeld(st) && !Displaces(st, e)
    ensures RunHeld(Next(st, e))
  {
    hide Closed, PlanSound, Readable, FirstHalf;
    if e.Settle? {
      var st' := Next(st, e);
      if st.running.Some? {
        var t := st.running.value;
        forall n | n in NamesOf(t) ensures n !in st'.ledger {
          if n in st'.ledger { StepApart(st, e, KeyOf(t), n); }
        }
      }
    }
  }

  lemma {:induction false} RunHolds(st: State, events: seq<Event>)
    requires Inv(st) && RunHeld(st) && OwnKeys(st, events)
    ensures RunHeld(Run(st, events))
    decreases |events|
  {
    hide Inv, Next, RunHeld, Displaces;
    if events != [] {
      NextKeeps(st, events[0]);
      NextHolds(st, events[0]);
      RunHolds(Next(st, events[0]), events[1..]);
    }
  }

  /** Over every interleaving of plans, dispatches, delegations, cancellations,
      session changes and dispatcher crashes, from any books and sessions with
      nothing claimed: no claim for the second engine is of the key of the task
      the first is running, nor of any other name of it as long as every card
      created has a key of its own; and a note that says dispatched bears a
      claimed name only when a delegation wrote it too late. */
  lemma NeverBothEngines(books: Books, sessions: map<string, seq<Session>>, events: seq<Event>, name: string)
    requires name in Run(Unclaimed(books, sessions), events).ledger
    ensures var st := Run(Unclaimed(books, sessions), events);
            && (st.running.Some? ==> KeyOf(st.running.value) != name && KeyOf(st.running.value) !in st.ledger[name].aliases)
            && (st.running.Some? && OwnKeys(Unclaimed(books, sessions), events) ==> !HasName(st.running.value, name))
            && (forall key | Dispatched(st.books, key) && !Late(Unclaimed(books, sessions), events, key, false) ::
                  !Named(key, st.books[key], name))
  {
    hide Run, Closed, PlanSound, OwnKeys, Late, Named;
    var from := Unclaimed(books, sessions);
    UnclaimedInv(books, sessions);
    RunKeeps(from, events);
    if OwnKeys(from, events) { RunHolds(from, events); }
    var st := Run(from, events);
    AliasesClaimed(st.ledger, name);
    forall key | Dispatched(st.books, key) && !Late(from, events, key, false) ensures !Named(key, st.books[key], name) {
      NotesAreApart(books, sessions, events, key);
    }
  }

  lemma AliasesClaimed(l: Ledger, name: string)
    requires Closed(l) && name in l
    ensures forall a | a in l[name].aliases :: a in l
  {
  }

  /** A plan that claims a card between its creation and the note of it. */
  lemma DelegatedTooLate(requirement: string, node: string, card: string)
    requires requirement != "" && node != "" && card != ""
    ensures var t := Task(card, None, false);
            var events := [Look(Request(requirement, {node}, [Binding(node, card)]), requirement, Some(map[card := t])),
                           Settle(0), Delegate(t)];
            var st := Run(Unclaimed(map[], map[requirement := []]), events);
            card in st.ledger && Dispatched(st.books, card) && Named(card, st.books[card], card)
  {
    hide FirstHalf, Commit, Late;
    var t, c := Task(card, None, false), Claim(requirement, node, [card]);
    var r := Request(requirement, {node}, [Binding(node, card)]);
    var s0 := Unclaimed(map[], map[requirement := []]);
    var e0, e1, e2 := Look(r, requirement, Some(map[card := t])), Settle(0), Delegate(t);
    OneClaim(r, requirement, node, card);
    var s1 := Next(s0, e0);
    assert s1.plans == [Pending(r, [c])];
    OneCommit(c, card);
    var s2 := Next(s1, e1);
    assert s2.ledger == map[card := c];
    ThreeEvents(s0, e0, e1, e2);
  }

  lemma ThreeEvents(st: State, a: Event, b: Event, c: Event)
    ensures Run(st, [a, b, c]) == Next(Next(Next(st, a), b), c)
  {
    hide Next;
    var s2 := Next(Next(st, a), b);
    assert [a, b, c][1..] == [b, c] && [b, c][1..] == [c] && [c][1..] == [];
    assert Run(s2, [c]) == Next(s2, c);
  }

  lemma OneClaim(r: Request, requirement: string, node: string, card: string)
    requires requirement != "" && node != "" && card != "" && r == Request(requirement, {node}, [Binding(node, card)])
    ensures FirstHalf(map[], r, requirement, Some(map[card := Task(card, None, false)])) == Pending(r, [Claim(requirement, node, [card])])
  {
    var b, provider := Binding(node, card), map[card := Task(card, None, false)];
    OnePrepared(requirement, b, provider, card);
    assert [b][..0] == [];
    assert Missing(map[], [b][..0]) == [];
    assert Missing(map[], [b]) == [b];
  }

  lemma OnePrepared(requirement: string, b: Binding, provider: Provider, card: string)
    requires b.card == card && provider == map[card := Task(card, None, false)]
    ensures Prepared(requirement, [b], provider) == Some([Claim(requirement, b.node, [card])])
  {
    assert AliasesOf(provider[card]) == [card];
    assert [b][..0] == [];
    assert Prepared(requirement, [b][..0], provider) == Some([]);
    assert [] + [Claim(requirement, b.node, AliasesOf(provider[card]))] == [Claim(requirement, b.node, [card])];
  }

  lemma OneCommit(c: Claim, card: string)
    requires c.aliases == [card]
    ensures Commit(map[], [c], map[], []) == Some(map[card := c])
  {
    assert [c][..0] == [] && [card][..0] == [];
    assert PutAliases(map[], c, []) == Some(map[]);
    assert PutAliases(map[], c, [card]) == Some(map[card := c]);
    assert Commit(map[], [c][..0], map[], []) == Some(map[]);
  }

  /** The two locks hold one another out: a task under way in the first engine
      cannot be claimed, however its card is called, and a crash of the
      dispatcher does not free it. */
  lemma RunningIsNotClaimed(st: State, k: nat, c: Claim, name: string)
    requires Inv(st) && RunHeld(st) && st.running.Some? && HasName(st.running.value, name)
    requires k < |st.plans| && st.plans[k].Pending? && c in st.plans[k].claims && name in c.aliases
    ensures Next(st, Settle(k)).plans[k] == Dropped && Next(st, Settle(k)).ledger == st.ledger
    ensures Next(Next(st, Halt), Settle(k)).plans[k] == Dropped && Next(Next(st, Halt), Settle(k)).ledger == st.ledger
  {
    hide Closed, PlanSound, Readable;
    var r := st.plans[k].request.requirement;
    if r in st.sessions && Commit(st.ledger, st.plans[k].claims, st.books, st.sessions[r]).Some? {
      CommittedWereIdle(st.ledger, st.plans[k].claims, st.books, st.sessions[r]);
      RunningIsBusy(st, c.aliases, st.sessions[r], name);
    }
  }

  lemma RunningIsBusy(st: State, aliases: seq<string>, sessions: seq<Session>, name: string)
    requires RunHeld(st) && st.running.Some? && HasName(st.running.value, name) && name in aliases
    ensures !LegacyIdle(st.books, sessions, aliases)
  {
    var t := st.running.value;
    assert Named(KeyOf(t), st.books[KeyOf(t)], name);
  }
}
