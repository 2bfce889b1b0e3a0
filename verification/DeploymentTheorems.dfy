/** What holds over every run of deployments, completions and crashes. */
module DeploymentTheorems {
  import opened Utf8
  import opened Strings
  import opened Deployment

  // ----- one event -----

  lemma CallsOfAppend(calls: seq<ProviderCall>, c: ProviderCall, key: string)
    ensures CallsOf(calls + [c], key) == CallsOf(calls, key) + if c.key == key then 1 else 0
  {
    assert (calls + [c])[..|calls|] == calls;
  }

  lemma {:induction false} NoCall(calls: seq<ProviderCall>, key: string)
    ensures CallsOf(calls, key) == 0 <==> forall c | c in calls :: c.key != key
    decreases |calls|
  {
    if calls != [] {
      NoCall(calls[..|calls| - 1], key);
      assert calls == calls[..|calls| - 1] + [calls[|calls| - 1]];
    }
  }

  /** More calls, and no file changed: what held of a file still does. */
  lemma FileStays(st: State, st': State, name: string)
    requires name in st.files && name in st'.files && st'.files[name] == st.files[name]
    requires forall c | c in st.calls :: c in st'.calls
    requires FileSound(st, name)
    ensures FileSound(st', name)
  {
    hide TokenName;
    if st.files[name].Done? && st.files[name].token.required {
      var t := st.files[name].token;
      var c :| c in st.calls && c.success && c.requirement == t.requirement && c.commit == t.commit;
      assert c in st'.calls;
    }
  }

  lemma BeginKeeps(st: State, r: Request)
    requires Inv(st)
    ensures Inv(Next(st, Begin(r)))
  {
    hide Judge, Key, FileSound, CallsOf;
    var st' := Next(st, Begin(r));
    var key := KeyOf(r);
    if st' != st {
      assert key !in st.files by { GoMeansNew(st, r); }
      NoCall(st.calls, key);
      forall name | name in st'.files ensures FileSound(st', name) {
        if name == key { NewIntent(st', r); } else { FileStays(st, st', name); }
      }
      forall k | k in st'.active ensures ActiveSound(st', k) {
        if k != key { assert ActiveSound(st, k); }
      }
    }
  }

  lemma GoMeansNew(st: State, r: Request)
    requires Judge(st, r).Go?
    ensures KeyOf(r) !in st.files
  {
    hide Resolve, Permitted, Answers;
  }

  lemma NewIntent(st: State, r: Request)
    requires KeyOf(r) in st.files && st.files[KeyOf(r)] == Intent(r)
    ensures FileSound(st, KeyOf(r))
  {
  }

  lemma CallKeeps(st: State, e: Event)
    requires Inv(st) && e.Call?
    ensures Inv(Next(st, e))
  {
    hide Key, FileSound, CallsOf;
    var st' := Next(st, e);
    if st' != st {
      assert ActiveSound(st, e.key);
      var c := st'.calls[|st.calls|];
      forall key ensures CallsOf(st'.calls, key) <= 1 { CallsOfAppend(st.calls, c, key); }
      forall name | name in st'.files ensures FileSound(st', name) { FileStays(st, st', name); }
      forall k | k in st'.active ensures ActiveSound(st', k) {
        assert ActiveSound(st, k);
        CallsOfAppend(st.calls, c, k);
      }
    }
  }

  lemma FinishKeeps(st: State, e: Event)
    requires Inv(st) && e.Finish?
    ensures Inv(Next(st, e))
  {
    hide Key, FileSound, CallsOf;
    var st' := Next(st, e);
    if st' != st {
      assert ActiveSound(st, e.key);
      forall name | name in st'.files ensures FileSound(st', name) {
        if name == e.key { NewReceipt(st, st', e); } else { FileStays(st, st', name); }
      }
      forall k | k in st'.active ensures ActiveSound(st', k) { assert ActiveSound(st, k); }
    }
  }

  lemma NewReceipt(st: State, st': State, e: Event)
    requires e.Finish? && e.key in st.active && st.active[e.key].Called? && ActiveSound(st, e.key) && st' == Next(st, e)
    ensures FileSound(st', e.key)
  {
    hide Key, CallsOf;
  }

  lemma CompleteKeeps(st: State, c: Completion)
    requires Inv(st)
    ensures Inv(Next(st, Complete(c)))
  {
    hide FileSound, CallsOf, TokenName, Persisted;
    var st' := Next(st, Complete(c));
    if st' != st {
      if c.policy.required { PersistedIsCaused(st, c.receipt.value); }
      forall name | name in st'.files ensures FileSound(st', name) {
        if name == NameOf(c) { NewTokenSound(st', c); } else { FileStays(st, st', name); }
      }
      forall k | k in st'.active ensures ActiveSound(st', k) { assert ActiveSound(st, k); }
    }
  }

  lemma NewTokenSound(st: State, c: Completion)
    requires NameOf(c) in st.files && st.files[NameOf(c)] == Done(NewToken(c))
    requires c.policy.required ==> Caused(st, c.requirement, c.commit)
    ensures FileSound(st, NameOf(c))
  {
    hide TokenName;
  }

  /** A receipt the service itself put on file and that says "succeeded" was
      caused by the provider saying so. */
  lemma PersistedIsCaused(st: State, receipt: Receipt)
    requires Inv(st) && Persisted(st, receipt) && receipt.facts.status == "succeeded"
    ensures Caused(st, receipt.facts.requirement, receipt.facts.commit)
  {
    hide CallsOf;
    var name :| name in st.files && !("completion-" <= name) && st.files[name] == Deployed(receipt);
    assert FileSound(st, name);
    var c := ProviderCall(name, receipt.facts.environment, receipt.facts.commit, receipt.facts.requirement, true);
    assert c in st.calls;
  }

  lemma NextKeeps(st: State, e: Event)
    requires Inv(st)
    ensures Inv(Next(st, e))
  {
    match e {
      case Record(_) => RecordKeeps(st, e);
      case Begin(r) => BeginKeeps(st, r);
      case Call(_, _, _, _) => CallKeeps(st, e);
      case Finish(_, _, _, _) => FinishKeeps(st, e);
      case Crash(_) => RecordKeeps(st, e);
      case Complete(c) => CompleteKeeps(st, c);
    }
  }

  lemma RecordKeeps(st: State, e: Event)
    requires Inv(st) && (e.Record? || e.Crash?)
    ensures Inv(Next(st, e))
  {
    hide FileSound, CallsOf, Key;
    var st' := Next(st, e);
    forall name | name in st'.files ensures FileSound(st', name) { FileStays(st, st', name); }
    forall k | k in st'.active ensures ActiveSound(st', k) { assert ActiveSound(st, k); }
  }

  // ----- runs -----

  /** Finished files and recorded authorities never change; nothing is removed;
      calls are only added. */
  predicate Grows(st: State, st': State) {
    && (forall name | name in st.files ::
          name in st'.files && (st'.files[name] == st.files[name] || st.files[name].InProgress?))
    && (forall id | id in st.authorities :: id in st'.authorities && st'.authorities[id] == st.authorities[id])
    && st.calls <= st'.calls
  }

  lemma NextGrows(st: State, e: Event)
    requires Inv(st)
    ensures Grows(st, Next(st, e))
  {
    hide Judge, FileSound, CallsOf, Key, TokenName, CompleteAnswer;
    match e {
      case Begin(r) => if Judge(st, r).Go? { GoMeansNew(st, r); }
      case Finish(key, _, _, _) => if key in st.active { assert ActiveSound(st, key); }
      case _ =>
    }
  }

  lemma {:induction false} RunKeeps(st: State, events: seq<Event>)
    requires Inv(st)
    ensures Inv(Run(st, events)) && Grows(st, Run(st, events))
    decreases |events|
  {
    hide Inv, Next;
    if events == [] {
      GrowsItself(st);
    } else {
      NextKeeps(st, events[0]);
      NextGrows(st, events[0]);
      RunKeeps(Next(st, events[0]), events[1..]);
      GrowsTransitive(st, Next(st, events[0]), Run(st, events));
    }
  }

  lemma GrowsItself(st: State)
    ensures Grows(st, st)
  {
  }

  lemma GrowsTransitive(st: State, mid: State, end: State)
    requires Grows(st, mid) && Grows(mid, end)
    ensures Grows(st, end)
  {
  }

  lemma EmptyInv()
    ensures Inv(EMPTY)
  {
  }

  /** Over every run of any services sharing one root, the provider is invoked
      at most once per journal key, and once it was, the key's file is there
      for good. */
  lemma DeployAtMostOnce(events: seq<Event>, key: string)
    ensures CallsOf(Run(EMPTY, events).calls, key) <= 1
    ensures CallsOf(Run(EMPTY, events).calls, key) == 1 ==> key in Run(EMPTY, events).files
  {
    hide Run;
    EmptyInv();
    RunKeeps(EMPTY, events);
    NoCall(Run(EMPTY, events).calls, key);
  }

  // ----- only what was authorized -----

  /** A recorded authority for deploying this commit to this environment: its
      merge receipt says the commit was merged and verified. */
  predicate Authorizes(a: Authority, environment: string, commit: string, requirement: string) {
    && AuthoritySound(a) && a.merge.merged && a.merge.sha == commit
    && a.authorization.environment == environment && a.authorization.commit == commit
    && a.authorization.requirement == requirement
  }

  predicate Authorized(st: State, environment: string, commit: string, requirement: string) {
    exists id | id in st.authorities :: Authorizes(st.authorities[id], environment, commit, requirement)
  }

  ghost predicate Lawful(st: State) {
    && (forall key | key in st.active ::
          var r := st.active[key].request; Authorized(st, r.policy.environment, r.authorization.commit, r.authorization.requirement))
    && (forall c | c in st.calls :: Authorized(st, c.environment, c.commit, c.requirement))
  }

  lemma AuthorizedStays(st: State, st': State, environment: string, commit: string, requirement: string)
    requires Grows(st, st') && Authorized(st, environment, commit, requirement)
    ensures Authorized(st', environment, commit, requirement)
  {
    hide Authorizes;
    var id :| id in st.authorities && Authorizes(st.authorities[id], environment, commit, requirement);
    assert id in st'.authorities && st'.authorities[id] == st.authorities[id];
  }

  lemma GoIsAuthorized(st: State, r: Request)
    requires Judge(st, r).Go?
    ensures Authorized(st, r.policy.environment, r.authorization.commit, r.authorization.requirement)
    ensures r.locked.clean && r.locked.branch == Some("main") && r.locked.head == r.authorization.commit
  {
    hide Answers, Key, MergeSound;
    var a := st.authorities[r.authorization.id];
    assert Authorizes(a, r.policy.environment, r.authorization.commit, r.authorization.requirement);
  }

  lemma NextLawful(st: State, e: Event)
    requires Inv(st) && Lawful(st)
    ensures Lawful(Next(st, e))
  {
    hide Inv, Judge, Authorized, Key, TokenName, CompleteAnswer, Grows;
    var st' := Next(st, e);
    NextGrows(st, e);
    if e.Begin? && Judge(st, e.request).Go? { GoIsAuthorized(st, e.request); }
    forall environment, commit, requirement | Authorized(st, environment, commit, requirement)
      ensures Authorized(st', environment, commit, requirement)
    {
      AuthorizedStays(st, st', environment, commit, requirement);
    }
  }

  lemma {:induction false} RunLawful(st: State, events: seq<Event>)
    requires Inv(st) && Lawful(st)
    ensures Lawful(Run(st, events))
    decreases |events|
  {
    hide Inv, Next, Lawful;
    if events != [] {
      NextKeeps(st, events[0]);
      NextLawful(st, events[0]);
      RunLawful(Next(st, events[0]), events[1..]);
    }
  }

  lemma EmptyLawful()
    ensures Lawful(EMPTY)
  {
  }

  /** Every invocation of the provider, in every run, is of a merged and verified
      commit that a recorded authorization names for that environment. */
  lemma CallsAreAuthorized(events: seq<Event>, c: ProviderCall)
    requires c in Run(EMPTY, events).calls
    ensures Authorized(Run(EMPTY, events), c.environment, c.commit, c.requirement)
  {
    hide Run, Inv, Authorized;
    EmptyInv();
    EmptyLawful();
    RunLawful(EMPTY, events);
  }

  // ----- what deploy returns -----

  /** A receipt that is this caller's own, and that tells what the one provider
      call under its key came to. */
  predicate TellsOf(st: State, receipt: Receipt, r: Request) {
    && Intact(receipt)
    && receipt.facts.project == r.policy.project && receipt.facts.environment == r.policy.environment
    && receipt.facts.commit == r.authorization.commit && receipt.facts.version == r.policy.version
    && receipt.facts.provider == r.policy.provider && receipt.facts.requirement == r.authorization.requirement
    && receipt.facts.authorization == r.authorization.id && receipt.facts.requestedBy == r.authorization.requestedBy
    && receipt.facts.merge == r.merge.receipt && receipt.facts.verification == r.verification
    && ProviderCall(KeyOf(r), r.policy.environment, r.authorization.commit, r.authorization.requirement,
                    receipt.facts.status == "succeeded") in st.calls
  }

  /** An earlier receipt is handed out only to a caller it belongs to, although
      requests that differ can share a key. */
  lemma ReusedReceipt(events: seq<Event>, r: Request)
    requires Judge(Run(EMPTY, events), r).Reuse?
    ensures TellsOf(Run(EMPTY, events), Judge(Run(EMPTY, events), r).receipt, r)
  {
    hide Run, CallsOf, Resolve, Permitted, Key;
    EmptyInv();
    RunKeeps(EMPTY, events);
    assert FileSound(Run(EMPTY, events), KeyOf(r));
  }

  /** So is the receipt of a deployment that just ran. */
  lemma FreshReceipt(events: seq<Event>, e: Event)
    requires var st := Run(EMPTY, events); e.Finish? && e.key in st.active && st.active[e.key].Called?
    ensures var st := Run(EMPTY, events);
            var st' := Next(st, e);
            var r := st.active[e.key].request;
            e.key == KeyOf(r) && st'.files[e.key].Deployed? && TellsOf(st', st'.files[e.key].receipt, r)
            && Answers(st'.files[e.key].receipt, r)
  {
    hide Run, CallsOf, Key, FileSound;
    EmptyInv();
    RunKeeps(EMPTY, events);
    assert ActiveSound(Run(EMPTY, events), e.key);
  }

  /** Two environments, one key: the dashes do not separate. */
  lemma KeysCollide()
    ensures var p := Policy("prod-eu", "v1", true, "shop", "default", true);
            var q := Policy("eu", "v1", true, "shop-prod", "default", true);
            p != q && forall commit :: Key(p, commit) == Key(q, commit)
  {
    forall commit: string
      ensures "shop" + "-" + "prod-eu" + "-" + commit + "-" + "v1" + ".json"
           == "shop-prod" + "-" + "eu" + "-" + commit + "-" + "v1" + ".json"
    {
      assert "shop" + "-" + "prod-eu" == "shop-prod" + "-" + "eu";
    }
  }

  // ----- an interrupted deployment -----

  lemma UncertainStep(st: State, key: string, e: Event)
    requires Inv(st) && key in st.files && st.files[key].InProgress? && key !in st.active
    ensures var st' := Next(st, e);
            key in st'.files && st'.files[key] == st.files[key] && key !in st'.active
            && CallsOf(st'.calls, key) == CallsOf(st.calls, key)
  {
    hide Judge, FileSound, Key, TokenName, CallsOf, CompleteAnswer;
    var st' := Next(st, e);
    match e {
      case Begin(r) => if Judge(st, r).Go? { GoMeansNew(st, r); }
      case Call(_, _, _, _) => if st' != st { CallsOfAppend(st.calls, st'.calls[|st.calls|], key); }
      case _ =>
    }
  }

  /** Once a deployment stopped between its intent and its receipt, nothing ever
      deploys under that key again, and every attempt is refused. */
  lemma {:induction false} UncertainForever(st: State, key: string, events: seq<Event>, r: Request)
    requires Inv(st) && key in st.files && st.files[key].InProgress? && key !in st.active && KeyOf(r) == key
    ensures Judge(Run(st, events), r).Refuse?
    ensures CallsOf(Run(st, events).calls, key) == CallsOf(st.calls, key)
    decreases |events|
  {
    hide Inv, Next, Resolve, Permitted, Key, CallsOf;
    if events != [] {
      UncertainStep(st, key, events[0]);
      NextKeeps(st, events[0]);
      UncertainForever(Next(st, events[0]), key, events[1..], r);
    }
  }

  // ----- completion -----

  /** Where deployment is required, a token is only handed out when the provider
      answered success for the requirement and the commit asked for, and for
      those the token names. */
  lemma CompletionCaused(events: seq<Event>, c: Completion)
    requires c.policy.required && CompleteAnswer(Run(EMPTY, events), c).Some?
    ensures var st := Run(EMPTY, events);
            var t := CompleteAnswer(st, c).value;
            t.required && Caused(st, c.requirement, c.commit) && Caused(st, t.requirement, t.commit)
  {
    hide Run, CallsOf, TokenName, Persisted, Caused;
    EmptyInv();
    RunKeeps(EMPTY, events);
    var st := Run(EMPTY, events);
    PersistedIsCaused(st, c.receipt.value);
    if NameOf(c) in st.files { assert FileSound(st, NameOf(c)); }
  }

  lemma PersistedStays(st: State, st': State, receipt: Receipt)
    requires Grows(st, st') && Persisted(st, receipt)
    ensures Persisted(st', receipt)
  {
    var name :| name in st.files && !("completion-" <= name) && st.files[name] == Deployed(receipt);
    assert name in st'.files && st'.files[name] == Deployed(receipt);
  }

  /** Completing again, at any later time of any run, returns the identical
      token. */
  lemma CompleteRepeats(st: State, c: Completion, events: seq<Event>, again: Completion)
    requires Inv(st) && CompleteAnswer(st, c).Some?
    requires again == c.(id := again.id, issuedAt := again.issuedAt)
    ensures CompleteAnswer(Run(Next(st, Complete(c)), events), again) == CompleteAnswer(st, c)
  {
    hide Run, Inv, TokenName, Persisted;
    var st1 := Next(st, Complete(c));
    NextKeeps(st, Complete(c));
    NextGrows(st, Complete(c));
    RunKeeps(st1, events);
    GrowsTransitive(st, st1, Run(st1, events));
    if c.policy.required { PersistedStays(st, Run(st1, events), c.receipt.value); }
    assert NameOf(again) == NameOf(c) && NameOf(c) in st1.files;
  }

  // ----- whose token it is -----

  /** No receipt, or one the service numbered: "deployment-" and 32 hex digits. */
  predicate IsReceiptName(s: string) {
    s == "not-required" || (|s| == 43 && s[..11] == "deployment-" && forall i | 11 <= i < 43 :: IsHex(s[i]))
  }

  predicate WellNamed(requirement: string, commit: string, receipt: Option<string>) {
    IsRequirement(requirement) && IsSha(commit) && IsReceiptName(ReceiptName(receipt))
  }

  lemma SameTail(a: string, b: string, c: string, d: string)
    requires a + b == c + d && |b| <= |d|
    ensures b == d[|d| - |b|..]
    ensures |b| == |d| ==> a == c
  {
    assert b == (a + b)[|a|..];
    assert d[|d| - |b|..] == (c + d)[|c| + |d| - |b|..];
    if |b| == |d| { assert a == (a + b)[..|a|] && c == (c + d)[..|c|]; }
  }

  lemma NameHead(n: string)
    requires IsReceiptName(n)
    ensures |n| == 12 || |n| == 43
    ensures |n| == 12 ==> n == "not-required" && n[0] == 'n'
    ensures |n| == 43 ==> n[31] != 'n'
  {
  }

  lemma RequirementHead(r: string)
    requires IsRequirement(r)
    ensures r[0] == 'R' && forall i | 0 < i < |r| :: r[i] != 'R'
  {
    assert r[0] == r[..4][0] && r[1] == r[..4][1] && r[2] == r[..4][2] && r[3] == r[..4][3];
  }

  lemma SameReceiptName(a: string, n: string, b: string, m: string)
    requires a + n == b + m && IsReceiptName(n) && IsReceiptName(m) && |n| <= |m|
    ensures n == m && a == b
  {
    SameTail(a, n, b, m);
    NameHead(n);
    NameHead(m);
    if |n| < |m| { assert false; }
  }

  lemma SameRequirement(a: string, r: string, b: string, q: string)
    requires a + r == b + q && IsRequirement(r) && IsRequirement(q) && |r| <= |q|
    ensures r == q && a == b
  {
    SameTail(a, r, b, q);
    RequirementHead(r);
    RequirementHead(q);
    if |r| < |q| { assert false; }
  }

  /** Well-formed names separate although they are joined by dashes. */
  lemma TokenNamesSeparate(e: string, r: string, c: string, n: Option<string>, e': string, r': string, c': string, n': Option<string>)
    requires WellNamed(r, c, n) && WellNamed(r', c', n') && TokenName(e, r, c, n) == TokenName(e', r', c', n')
    ensures e == e' && r == r' && c == c' && ReceiptName(n) == ReceiptName(n')
  {
    hide IsRequirement, IsSha, IsReceiptName, ReceiptName;
    var head, head' := "completion-" + e + "-" + r + "-" + c + "-", "completion-" + e' + "-" + r' + "-" + c' + "-";
    assert head + ReceiptName(n) + ".json" == TokenName(e, r, c, n);
    assert head' + ReceiptName(n') + ".json" == TokenName(e', r', c', n');
    SameTail(head + ReceiptName(n), ".json", head' + ReceiptName(n'), ".json");
    if |ReceiptName(n)| <= |ReceiptName(n')| { SameReceiptName(head, ReceiptName(n), head', ReceiptName(n')); }
    else { SameReceiptName(head', ReceiptName(n'), head, ReceiptName(n)); }
    var front, front' := "completion-" + e + "-" + r + "-", "completion-" + e' + "-" + r' + "-";
    assert front + (c + "-") == head && front' + (c' + "-") == head';
    assert |c| == |c'| == 40 by { ShaLength(c); ShaLength(c'); }
    SameTail(front, c + "-", front', c' + "-");
    assert (c + "-")[..|c|] == c && (c' + "-")[..|c'|] == c';
    SameTail("completion-" + e + "-" + r, "-", "completion-" + e' + "-" + r', "-");
    if |r| <= |r'| { SameRequirement("completion-" + e + "-", r, "completion-" + e' + "-", r'); }
    else { SameRequirement("completion-" + e' + "-", r', "completion-" + e + "-", r); }
    SameTail("completion-" + e, "-", "completion-" + e', "-");
    assert ("completion-" + e)[11..] == e && ("completion-" + e')[11..] == e';
  }

  lemma ShaLength(c: string)
    requires IsSha(c)
    ensures |c| == 40
  {
  }

  /** When every completion of a run is well named, the token handed out is the
      one for the environment, requirement, commit and receipt asked for. */
  lemma TokenIsTheCallers(events: seq<Event>, c: Completion)
    requires forall e | e in events && e.Complete? ::
               WellNamed(e.completion.requirement, e.completion.commit, ReceiptId(e.completion))
    requires WellNamed(c.requirement, c.commit, ReceiptId(c))
    requires CompleteAnswer(Run(EMPTY, events), c).Some?
    ensures var t := CompleteAnswer(Run(EMPTY, events), c).value;
            && t.environment == c.policy.environment && t.requirement == c.requirement && t.commit == c.commit
            && ReceiptName(t.receipt) == ReceiptName(ReceiptId(c))
  {
    hide Run, CallsOf, TokenName, WellNamed, Completable;
    EmptyInv();
    RunKeeps(EMPTY, events);
    TokensWellNamed(EMPTY, events);
    var st := Run(EMPTY, events);
    if NameOf(c) in st.files {
      assert FileSound(st, NameOf(c));
      var t := st.files[NameOf(c)].token;
      TokenNamesSeparate(t.environment, t.requirement, t.commit, t.receipt, c.policy.environment, c.requirement, c.commit, ReceiptId(c));
    }
  }

  ghost predicate AllWellNamed(st: State) {
    forall name | name in st.files && st.files[name].Done? ::
      WellNamed(st.files[name].token.requirement, st.files[name].token.commit, st.files[name].token.receipt)
  }

  lemma {:induction false} TokensWellNamed(st: State, events: seq<Event>)
    requires AllWellNamed(st)
    requires forall e | e in events && e.Complete? ::
               WellNamed(e.completion.requirement, e.completion.commit, ReceiptId(e.completion))
    ensures AllWellNamed(Run(st, events))
    decreases |events|
  {
    hide WellNamed, Judge, TokenName, Key, CompleteAnswer;
    if events != [] {
      assert events[0] in events;
      TokensWellNamed(Next(st, events[0]), events[1..]);
    }
  }

  /** The token is for what the completion asks about. */
  predicate OwnToken(t: Token, c: Completion) {
    && t.environment == c.policy.environment && t.requirement == c.requirement && t.commit == c.commit && t.receipt == ReceiptId(c)
  }

  predicate SameWork(c: Completion, d: Completion) {
    && c.policy.environment == d.policy.environment && c.requirement == d.requirement && c.commit == d.commit
    && ReceiptId(c) == ReceiptId(d)
  }

  /** The completion that a run first records under a name. */
  function Opener(st: State, events: seq<Event>, name: string): Option<Completion>
    decreases |events|
  {
    if events == [] then None
    else if events[0].Complete? && NameOf(events[0].completion) == name && name !in st.files
            && CompleteAnswer(st, events[0].completion).Some?
    then Some(events[0].completion)
    else Opener(Next(st, events[0]), events[1..], name)
  }

  /** A token on file is that of the completion first recorded under its name. */
  lemma {:induction false} TokenOnFile(st: State, events: seq<Event>, name: string)
    requires Inv(st) && !(name in st.files && st.files[name].Done?)
    ensures var end := Run(st, events);
            match Opener(st, events, name)
            case None => !(name in end.files && end.files[name].Done?)
            case Some(c) => name in end.files && end.files[name] == Done(NewToken(c))
    decreases |events|
  {
    hide Inv, NameOf, CompleteAnswer, Judge, CallsOf;
    if events != [] {
      var st' := Next(st, events[0]);
      NextKeeps(st, events[0]);
      if name in st'.files && st'.files[name].Done? {
        OnlyCompletionsFile(st, events[0], name);
        RunKeeps(st', events[1..]);
      } else {
        TokenOnFile(st', events[1..], name);
      }
    }
  }

  lemma OnlyCompletionsFile(st: State, e: Event, name: string)
    requires Inv(st) && !(name in st.files && st.files[name].Done?)
    requires name in Next(st, e).files && Next(st, e).files[name].Done?
    ensures e.Complete? && NameOf(e.completion) == name && name !in st.files && CompleteAnswer(st, e.completion).Some?
    ensures Next(st, e).files[name] == Done(NewToken(e.completion))
  {
    hide Inv, NameOf, CompleteAnswer, Judge;
  }

  /** Over every run, the token an answer hands out is the caller's own exactly
      when nothing was recorded under its name before, or the completion first
      recorded there was of the same environment, requirement, commit and
      receipt. */
  lemma OwnTokenOrFirst(events: seq<Event>, c: Completion)
    requires CompleteAnswer(Run(EMPTY, events), c).Some?
    ensures var first := Opener(EMPTY, events, NameOf(c));
            OwnToken(CompleteAnswer(Run(EMPTY, events), c).value, c) <==> first == None || SameWork(first.value, c)
  {
    hide Run, Inv, NameOf, Completable, Opener;
    EmptyInv();
    TokenOnFile(EMPTY, events, NameOf(c));
  }

  /** Of two completions under names new to the files, the second is answered
      with its own token exactly when the names differ or both are of the same
      work. */
  lemma SecondCompletion(st: State, c: Completion, d: Completion)
    requires NameOf(c) !in st.files && NameOf(d) !in st.files && CompleteAnswer(st, c).Some?
    requires CompleteAnswer(Next(st, Complete(c)), d).Some?
    ensures OwnToken(CompleteAnswer(Next(st, Complete(c)), d).value, d) <==> NameOf(c) != NameOf(d) || SameWork(c, d)
  {
    hide NameOf, Completable;
  }

  /** Otherwise it can be someone else's: a token for requirement "b-c" in
      environment "a" answers for requirement "c" in environment "a-b". */
  lemma TokenOfAnother(commit: string)
    ensures var first := Completion(Policy("a", "v", false, "p", "d", false), "b-c", commit, None, "id", "t");
            var other := Completion(Policy("a-b", "v", false, "p", "d", false), "c", commit, None, "id", "t");
            CompleteAnswer(Run(EMPTY, [Complete(first)]), other) == Some(NewToken(first))
            && NewToken(first).requirement != other.requirement
  {
    var first := Completion(Policy("a", "v", false, "p", "d", false), "b-c", commit, None, "id", "t");
    var other := Completion(Policy("a-b", "v", false, "p", "d", false), "c", commit, None, "id", "t");
    assert "completion-" + "a" + "-" + "b-c" == "completion-" + "a-b" + "-" + "c";
    assert NameOf(first) == NameOf(other);
    assert [Complete(first)][1..] == [];
    assert Run(EMPTY, [Complete(first)]) == Next(EMPTY, Complete(first));
  }
}
