/** Deploying one commit to one environment at most once, and completing a
    requirement on the strength of it. File names are the dash-joined texts the
    code builds, which different requests may share. */
module Deployment {
  import opened Utf8
  import opened Strings

  datatype Policy = Policy(
    environment: string, version: string, remoteMain: bool, project: string, provider: string, required: bool)

  datatype Authorization = Authorization(
    id: string, requirement: string, environment: string, commit: string, merge: string, verification: string,
    requestedBy: string, issuedAt: string)

  /** A merge receipt; `sound` is the check of the fields not listed. */
  datatype Merge = Merge(
    receipt: string, requirement: string, merged: bool, sha: string, verification: Option<string>, sound: bool, rest: string)

  datatype Authority = Authority(authorization: Authorization, merge: Merge, verification: string)

  datatype Main = Main(branch: Option<string>, remote: Option<string>, clean: bool, head: string)

  datatype Facts = Facts(
    receipt: string, requirement: string, environment: string, commit: string, version: string, status: string,
    startedAt: string, completedAt: string, rollback: string, detail: string, project: string, provider: string,
    authorization: string, requestedBy: string, merge: string, verification: string, main: Option<Main>)

  /** The HMAC under the root's key, modelled as what it was taken of. */
  datatype Integrity = Unsigned | Signed(facts: Facts)

  datatype Receipt = Receipt(facts: Facts, integrity: Integrity)

  datatype Token = Token(
    id: string, requirement: string, commit: string, receipt: Option<string>, issuedAt: string, required: bool,
    environment: string)

  datatype Document =
    | InProgress(authorization: string, requirement: string, commit: string, startedAt: string)
    | Deployed(receipt: Receipt)
    | Done(token: Token)
    | Junk

  /** One invocation of provider.deploy, and what it came to. */
  datatype ProviderCall = ProviderCall(key: string, environment: string, commit: string, requirement: string, success: bool)

  datatype Request = Request(
    policy: Policy, authorization: Authorization, merge: Merge, verification: string, before: Main, locked: Main, startedAt: string)

  /** A deployment whose lock is held: the intent is on file, and perhaps the
      provider has answered. */
  datatype Active = Claimed(request: Request) | Called(request: Request, success: bool, detail: string, rollback: string)

  datatype State = State(
    files: map<string, Document>, authorities: map<string, Authority>, active: map<string, Active>, calls: seq<ProviderCall>)

  // ----- deploy -----

  function Key(p: Policy, commit: string): string {
    p.project + "-" + p.environment + "-" + commit + "-" + p.version + ".json"
  }

  /** MergeReceipt.validate */
  predicate MergeSound(m: Merge) {
    && m.sound && !Blank(m.receipt) && !Blank(m.requirement) && IsSha(m.sha)
    && (m.merged ==> m.verification.Some? && m.verification.value != "")
  }

  /** DeploymentAuthorityStore._validate */
  predicate AuthoritySound(a: Authority) {
    && MergeSound(a.merge) && a.verification != ""
    && a.authorization.requirement == a.merge.requirement && a.authorization.commit == a.merge.sha
    && a.authorization.merge == a.merge.receipt && a.authorization.verification == a.verification
    && a.merge.verification == Some(a.verification)
  }

  /** resolve: the recorded authority, or none. */
  function Resolve(st: State, id: string): Option<Authority> {
    if IsIdentifier(id) && id in st.authorities && AuthoritySound(st.authorities[id])
       && st.authorities[id].authorization.id == id
    then Some(st.authorities[id]) else None
  }

  /** Why there is no recorded authority for a request. */
  function AuthorityCode(authorities: map<string, Authority>, id: string): string {
    if !IsIdentifier(id) then "invalid_authorization"
    else if id !in authorities then "authority_missing"
    else if !AuthoritySound(authorities[id]) then "invalid_authorization"
    else "authority_mismatch"
  }

  predicate Permitted(r: Request, main: Main) {
    && main.branch == Some("main") && main.clean && main.head == r.authorization.commit
    && (r.policy.remoteMain ==> main.remote == Some(main.head))
    && r.authorization.environment == r.policy.environment
    && r.merge.merged && r.merge.requirement == r.authorization.requirement
    && r.merge.sha == main.head && r.merge.receipt == r.authorization.merge
    && r.merge.verification.Some? && r.merge.verification.value != "" && r.merge.verification.value == r.verification
    && r.authorization.verification == r.verification
  }

  /** Why a request is not permitted. */
  function PermitCode(r: Request, main: Main): string {
    if main.branch != Some("main") || !main.clean || main.head != r.authorization.commit then "not_protected_main"
    else if r.policy.remoteMain && main.remote != Some(main.head) then "remote_main_drift"
    else if r.authorization.environment != r.policy.environment then "authorization_mismatch"
    else if !r.merge.merged || r.merge.requirement != r.authorization.requirement || r.merge.sha != main.head
            || r.merge.receipt != r.authorization.merge then "invalid_merge_receipt"
    else "invalid_verification_receipt"
  }

  predicate Intact(receipt: Receipt) {
    receipt.integrity == Signed(receipt.facts)
  }

  /** _validate_existing_receipt */
  predicate Answers(receipt: Receipt, r: Request) {
    && Intact(receipt) && receipt.facts.status in ["succeeded", "failed"]
    && receipt.facts.requirement == r.authorization.requirement && receipt.facts.environment == r.policy.environment
    && receipt.facts.commit == r.authorization.commit && receipt.facts.version == r.policy.version
    && receipt.facts.project == r.policy.project && receipt.facts.provider == r.policy.provider
    && receipt.facts.authorization == r.authorization.id && receipt.facts.requestedBy == r.authorization.requestedBy
    && receipt.facts.merge == r.merge.receipt && receipt.facts.verification == r.verification
  }

  datatype Verdict = Refuse(code: string) | Reuse(receipt: Receipt) | Go

  /** deploy, up to the decision made under the lock of its key. */
  function Judge(st: State, r: Request): Verdict {
    if Resolve(st, r.authorization.id) != Some(Authority(r.authorization, r.merge, r.verification)) then
      Refuse(AuthorityCode(st.authorities, r.authorization.id))
    else if !Permitted(r, r.before) then Refuse(PermitCode(r, r.before))
    else
      var key := Key(r.policy, r.authorization.commit);
      if key in st.files then
        match st.files[key]
        case InProgress(_, _, _, _) => Refuse("deployment_uncertain")
        case Deployed(receipt) => if Answers(receipt, r) then Reuse(receipt)
                                 else Refuse(if Intact(receipt) then "receipt_mismatch" else "receipt_tampered")
        case Done(_) => Refuse("receipt_corrupt")
        case Junk => Refuse("receipt_corrupt")
      else if !Permitted(r, r.locked) then Refuse(PermitCode(r, r.locked))
      else Go
  }

  function KeyOf(r: Request): string {
    Key(r.policy, r.authorization.commit)
  }

  function Intent(r: Request): Document {
    InProgress(r.authorization.id, r.authorization.requirement, r.authorization.commit, r.startedAt)
  }

  function Outcome(r: Request, success: bool, detail: string, rollback: string, id: string, completedAt: string, main: Main): Receipt {
    var facts := Facts(id, r.authorization.requirement, r.policy.environment, r.authorization.commit, r.policy.version,
                       if success then "succeeded" else "failed", r.startedAt, completedAt, rollback, detail,
                       r.policy.project, r.policy.provider, r.authorization.id, r.authorization.requestedBy,
                       r.merge.receipt, r.verification, Some(main));
    Receipt(facts, Signed(facts))
  }

  // ----- complete -----

  function ReceiptName(receipt: Option<string>): string {
    if receipt.Some? && receipt.value != "" then receipt.value else "not-required"
  }

  function TokenName(environment: string, requirement: string, commit: string, receipt: Option<string>): string {
    "completion-" + environment + "-" + requirement + "-" + commit + "-" + ReceiptName(receipt) + ".json"
  }

  /** _receipt_is_persisted */
  predicate Persisted(st: State, receipt: Receipt) {
    Intact(receipt) && exists name | name in st.files :: !("completion-" <= name) && st.files[name] == Deployed(receipt)
  }

  datatype Completion = Completion(
    policy: Policy, requirement: string, commit: string, receipt: Option<Receipt>, id: string, issuedAt: string)

  predicate Completable(st: State, c: Completion) {
    c.policy.required ==>
      && c.receipt.Some? && c.receipt.value.facts.status == "succeeded"
      && c.receipt.value.facts.commit == c.commit && c.receipt.value.facts.requirement == c.requirement
      && Persisted(st, c.receipt.value)
  }

  function ReceiptId(c: Completion): Option<string> {
    if c.receipt.Some? then Some(c.receipt.value.facts.receipt) else None
  }

  function NameOf(c: Completion): string {
    TokenName(c.policy.environment, c.requirement, c.commit, ReceiptId(c))
  }

  function NewToken(c: Completion): Token {
    Token(c.id, c.requirement, c.commit, ReceiptId(c), c.issuedAt, c.policy.required, c.policy.environment)
  }

  /** The token complete returns; None is a DeploymentError. */
  function CompleteAnswer(st: State, c: Completion): Option<Token> {
    if !Completable(st, c) then None
    else if NameOf(c) in st.files then
      match st.files[NameOf(c)]
      case Done(token) => if token.required == c.policy.required then Some(token) else None
      case _ => None
    else Some(NewToken(c))
  }

  // ----- the machine -----

  /** Deployments of different keys run side by side, each in three steps; a
      crash releases its lock and leaves its files. */
  datatype Event =
    | Record(authority: Authority)
    | Begin(request: Request)
    | Call(key: string, success: bool, detail: string, rollback: string)
    | Finish(key: string, id: string, completedAt: string, main: Main)
    | Crash(key: string)
    | Complete(completion: Completion)

  function Next(st: State, e: Event): State {
    match e
    case Record(a) =>
      if IsIdentifier(a.authorization.id) && AuthoritySound(a) && a.authorization.id !in st.authorities
      then st.(authorities := st.authorities[a.authorization.id := a]) else st
    case Begin(r) =>
      var key := KeyOf(r);
      if key !in st.active && Judge(st, r).Go?
      then st.(files := st.files[key := Intent(r)], active := st.active[key := Claimed(r)]) else st
    case Call(key, success, detail, rollback) =>
      if key in st.active && st.active[key].Claimed? then
        var r := st.active[key].request;
        st.(active := st.active[key := Called(r, success, detail, rollback)],
            calls := st.calls + [ProviderCall(key, r.policy.environment, r.authorization.commit, r.authorization.requirement, success)])
      else st
    case Finish(key, id, completedAt, main) =>
      if key in st.active && st.active[key].Called? then
        var a := st.active[key];
        st.(files := st.files[key := Deployed(Outcome(a.request, a.success, a.detail, a.rollback, id, completedAt, main))],
            active := st.active - {key})
      else st
    case Crash(key) => st.(active := st.active - {key})
    case Complete(c) =>
      if NameOf(c) !in st.files && CompleteAnswer(st, c).Some?
      then st.(files := st.files[NameOf(c) := Done(NewToken(c))]) else st
  }

  function Run(st: State, events: seq<Event>): State
    decreases |events|
  {
    if events == [] then st else Run(Next(st, events[0]), events[1..])
  }

  const EMPTY: State := State(map[], map[], map[], [])

  // ----- what every run keeps -----

  function CallsOf(calls: seq<ProviderCall>, key: string): nat {
    if calls == [] then 0 else CallsOf(calls[..|calls| - 1], key) + if calls[|calls| - 1].key == key then 1 else 0
  }

  predicate Caused(st: State, requirement: string, commit: string) {
    exists c | c in st.calls :: c.success && c.requirement == requirement && c.commit == commit
  }

  /** A receipt on file tells what the provider's call under its name came to. */
  predicate Truthful(st: State, key: string, receipt: Receipt) {
    && Intact(receipt)
    && ProviderCall(key, receipt.facts.environment, receipt.facts.commit, receipt.facts.requirement,
                    receipt.facts.status == "succeeded") in st.calls
    && (receipt.facts.status == "succeeded" || receipt.facts.status == "failed")
  }

  predicate FileSound(st: State, name: string)
    requires name in st.files
  {
    match st.files[name]
    case InProgress(_, _, _, _) => true
    case Deployed(receipt) => Truthful(st, name, receipt)
    case Done(t) => name == TokenName(t.environment, t.requirement, t.commit, t.receipt) && (t.required ==> Caused(st, t.requirement, t.commit))
    case Junk => true
  }

  predicate ActiveSound(st: State, key: string)
    requires key in st.active
  {
    var a := st.active[key];
    && key == KeyOf(a.request) && key in st.files && st.files[key].InProgress?
    && (match a
        case Claimed(_) => CallsOf(st.calls, key) == 0
        case Called(r, success, _, _) =>
          ProviderCall(key, r.policy.environment, r.authorization.commit, r.authorization.requirement, success) in st.calls)
  }

  ghost predicate Inv(st: State) {
    && (forall name | name in st.files :: FileSound(st, name))
    && (forall key | key in st.active :: ActiveSound(st, key))
    && (forall key :: CallsOf(st.calls, key) <= 1)
    && (forall c | c in st.calls :: c.key in st.files && (st.files[c.key].InProgress? || st.files[c.key].Deployed?))
    && (forall id | id in st.authorities :: AuthoritySound(st.authorities[id]) && st.authorities[id].authorization.id == id)
  }
}
