/** The four operations that write gate files: recording a review, issuing a
    gate, activating a phase, and reopening one. Each runs under the
    requirement's lock and is a list of atomic file writes; a crash keeps a
    prefix of them. */
module GateOps {
  import opened Utf8
  import opened Strings
  import opened GateRecords
  import opened GateChain

  datatype Write =
    | PutReview(path: Path, review: Review)
    | PutGate(path: Path, gate: Gate)
    | PutActivation(path: Path, activation: Activation)
    | PutReopen(path: Path, journal: Journal)
    | PutArchive(path: Path, fingerprint: Digest, archive: Archive)
    | DropReview(path: Path)
    | DropGate(path: Path)

  function Apply(s: Store, w: Write): Store {
    match w
    case PutReview(p, r) => s.(reviews := s.reviews[p := r])
    case PutGate(p, g) => s.(gates := s.gates[p := g])
    case PutActivation(p, a) => s.(activations := s.activations[p := a])
    case PutReopen(p, j) => s.(reopens := s.reopens[p := j])
    case PutArchive(p, d, a) => s.(history := s.history[(p, d) := a])
    case DropReview(p) => s.(reviews := s.reviews - {p})
    case DropGate(p) => s.(gates := s.gates - {p})
  }

  function ApplyAll(s: Store, ws: seq<Write>): Store
    decreases |ws|
  {
    if ws == [] then s else ApplyAll(Apply(s, ws[0]), ws[1..])
  }

  /** What an operation does: the writes it gets to, and whether it then
      returns or raises. */
  datatype Plan = Plan(writes: seq<Write>, ok: bool)

  const REFUSED: Plan := Plan([], false)

  // ----- review -----

  datatype ReviewInput = ReviewInput(
    receipts: seq<string>, sessions: seq<string>, runs: seq<string>, verdict: string, findings: seq<string>)

  predicate AllReceipts(s: Store, requirement: string, ids: seq<string>) {
    forall i | 0 <= i < |ids| :: HasReceipt(s, requirement, ids[i])
  }

  function Fingerprints(s: Store, requirement: string, ids: seq<string>): (ds: seq<Digest>)
    requires AllReceipts(s, requirement, ids)
    ensures |ds| == |ids|
  {
    seq(|ids|, i requires 0 <= i < |ids| && HasReceipt(s, requirement, ids[i]) =>
          OfReceipt(s.receipts[(requirement, ids[i])]))
  }

  function AttestationOf(input: ReviewInput, reviewer: string, now: int): Attestation {
    Attestation(reviewer, input.sessions, input.runs, input.verdict, input.findings, now, SCHEMA)
  }

  /** The gate a review is checked as, before there is one. */
  function Provisional(w: World, s: Store, path: Path, d: Definition, input: ReviewInput, reviewer: string): Gate
    requires AllReceipts(s, path.0, input.receipts)
  {
    var evidence := if input.receipts == [] then "missing" else input.receipts[0];
    Gate(path.0, path.1, d.task, w.head, d.planFingerprint, OfAcceptance(d.acceptance),
         seq(|d.acceptance|, i requires 0 <= i < |d.acceptance| =>
               Result(d.acceptance[i].id, "PASS", "reviewed", [evidence], SCHEMA)),
         input.receipts, Fingerprints(s, path.0, input.receipts), "independent review input validation",
         AttestationOf(input, reviewer, w.now), w.now, reviewer, "PASS", None, None, None, SCHEMA, "")
  }

  /** What record_review_from_payload checks before it takes the lock. */
  predicate Reviewable(w: World, s: Store, path: Path, input: ReviewInput, reviewer: string) {
    && !Blank(reviewer)
    && (var ds := Definitions(w.commits, w.head, path.0);
        && ds.Some? && 0 <= path.1 < |ds.value|
        && AllReceipts(s, path.0, input.receipts)
        && var d := ds.value[path.1];
           var g := Provisional(w, s, path, d, input, reviewer);
        && PassFacts(w.now, g) && ExactHead(w, s, g)
        && (path.1 > 0 ==> PhaseActivated(w, s, path, d, true))
        && ReceiptBindings(w, s, g, d, if path.1 > 0 then Some(s.activations[path].activatedAt) else None))
  }

  function ReviewOf(w: World, s: Store, path: Path, input: ReviewInput, reviewer: string): Review
    requires AllReceipts(s, path.0, input.receipts)
  {
    Review(path.0, path.1, w.head, input.receipts, Fingerprints(s, path.0, input.receipts),
           AttestationOf(input, reviewer, w.now), SCHEMA)
  }

  predicate HasReview(s: Store, path: Path) {
    path in s.reviews && s.reviews[path].requirement == path.0 && s.reviews[path].phase == path.1
  }

  /** What was seen before the lock: by the time the review is written, others
      may have changed the files, and HEAD may have moved. */
  datatype Seen = Seen(world: World, store: Store)

  /** _require_exact_head of the provisional gate, which is a gate of the commit
      seen. */
  predicate StillCurrent(w: World, s: Store, path: Path, commit: string) {
    NoPendingReopen(s, path) && w.inPlace && IsSha(w.head) && w.clean && commit == w.head
  }

  /** record_review_from_payload: create once; the same review again is
      answered with the stored one. */
  function ReviewPlan(w: World, s: Store, path: Path, input: ReviewInput, reviewer: string, seen: Seen): Plan {
    if !Reviewable(seen.world, seen.store, path, input, reviewer) then REFUSED
    else
      var r := ReviewOf(seen.world, seen.store, path, input, reviewer);
      if path !in s.reviews then
        if StillCurrent(w, s, path, r.commit) then Plan([PutReview(path, r)], true) else REFUSED
      else
        var stored := s.reviews[path];
        var again := r.(attestation := r.attestation.(reviewedAt := stored.attestation.reviewedAt));
        Plan([], HasReview(s, path) && stored == again && StillCurrent(w, s, path, r.commit))
  }

  // ----- issue -----

  datatype IssueInput = IssueInput(results: seq<Result>, summary: string, issuedBy: string)

  /** The record _issue_validated builds. */
  function Issued(w: World, s: Store, path: Path, d: Definition, input: IssueInput): Gate
    requires HasReview(s, path) && AllReceipts(s, path.0, s.reviews[path].receipts)
    requires path.1 > 0 ==> (path.0, path.1 - 1) in s.gates
  {
    var review := s.reviews[path];
    var previous := if path.1 > 0 then Some(s.gates[(path.0, path.1 - 1)]) else None;
    Gate(path.0, path.1, d.task, w.head, d.planFingerprint, OfAcceptance(d.acceptance),
         input.results, review.receipts, Fingerprints(s, path.0, review.receipts), input.summary,
         review.attestation, w.now, input.issuedBy, "PASS",
         if previous.Some? then Some(previous.value.phase) else None,
         if previous.Some? then Some(previous.value.commit) else None,
         if previous.Some? then Some(OfGate(previous.value)) else None, SCHEMA, "")
  }

  /** issue_from_payload up to building the record: a current review whose
      receipts have not changed. `revalidated` is the verification runner's
      fresh word on every receipt. */
  predicate Issuable(w: World, s: Store, path: Path, revalidated: bool) {
    && path.1 >= 0 && NoPendingReopen(s, path) && HasReview(s, path)
    && var review := s.reviews[path];
    && review.schema == SCHEMA && IsSha(review.commit) && review.commit == w.head && w.clean
    && |review.receipts| == |review.receiptFingerprints| && Unique(review.receipts)
    && AllReceipts(s, path.0, review.receipts)
    && Fingerprints(s, path.0, review.receipts) == review.receiptFingerprints
    && Loadable(w.commits, w.head, path)
    && (path.1 > 0 ==> (path.0, path.1 - 1) in s.gates)
    && revalidated
  }

  /** A gate is written once; issuing the same gate again changes nothing. */
  function IssuePlan(w: World, s: Store, path: Path, input: IssueInput, revalidated: bool): Plan {
    if !Issuable(w, s, path, revalidated) then REFUSED
    else
      var g := Issued(w, s, path, Load(w.commits, w.head, path).value, input);
      if path !in s.gates then (if GateValid(w, s, g) then Plan([PutGate(path, g)], true) else REFUSED)
      else
        var stored := s.gates[path];
        Plan([], g.(issuedAt := stored.issuedAt) == stored && GateValid(w, s, stored))
  }

  // ----- activation -----

  /** _write_activation */
  function ActivatePlan(w: World, s: Store, a: Activation): Plan {
    var path := (a.requirement, a.phase);
    if !ActivationValid(w, s, a) then REFUSED
    else if path !in s.activations then Plan([PutActivation(path, a)], true)
    else Plan([], HasActivation(s, path) && s.activations[path] == a)
  }

  // ----- reopen -----

  function At<T>(m: map<Path, T>, path: Path): Option<T> {
    if path in m then Some(m[path]) else None
  }

  /** Everything reopen checks before it looks at the candidates. */
  predicate Reopenable(w: World, s: Store, path: Path, reason: string, session: string) {
    && !Blank(reason) && !Blank(session) && w.inPlace
    && path.0 in s.meta && s.meta[path.0].gated == Set(true)
    && (var ds := Definitions(w.commits, w.head, path.0);
        && ds.Some? && 0 <= path.1 < |ds.value|
        && (path.0, path.1 + 1) !in s.activations
        && s.meta[path.0].task == Some(ds.value[path.1].task) && s.meta[path.0].status != "done"
        && (path.1 > 0 ==> PhaseActivated(w, s, path, ds.value[path.1], true)))
  }

  function TaskAt(w: World, path: Path): string {
    var ds := Definitions(w.commits, w.head, path.0);
    if ds.Some? && 0 <= path.1 < |ds.value| then ds.value[path.1].task else ""
  }

  function NewArchive(w: World, s: Store, path: Path, reason: string, session: string): Archive {
    Archive(SCHEMA, path.0, path.1, TaskAt(w, path), Strip(reason), session, w.now,
            At(s.reviews, path), At(s.gates, path))
  }

  predicate HasCandidate(s: Store, path: Path) {
    path in s.reviews || path in s.gates
  }

  /** The journal a call works from: the unfinished one, the finished one of
      the same reason when nothing is left to reopen, or a new one. */
  datatype Chosen = Deny | Resume(journal: Journal) | Start(journal: Journal)

  function ChooseJournal(w: World, s: Store, path: Path, reason: string, session: string): Chosen {
    match ReadReopen(s, path)
    case BadJournal => Deny
    case ReadJournal(j) =>
      if j.pending then
        if j.archive.reason == Strip(reason) && j.archive.task == TaskAt(w, path) then Resume(j) else Deny
      else if HasCandidate(s, path) then Start(NewJournal(NewArchive(w, s, path, reason, session)))
      else if j.archive.reason == Strip(reason) then Resume(j) else Deny
    case NoJournal =>
      if HasCandidate(s, path) then Start(NewJournal(NewArchive(w, s, path, reason, session))) else Deny
  }

  function NewJournal(a: Archive): Journal {
    Journal(SCHEMA, true, OfArchive(a), a)
  }

  /** The candidates still at their paths are the archived ones. */
  predicate CandidatesArchived(s: Store, path: Path, a: Archive) {
    (path in s.reviews ==> a.review == Some(s.reviews[path])) && (path in s.gates ==> a.gate == Some(s.gates[path]))
  }

  /** The writes once the journal is durable: archive, drop, complete. */
  function FinishPlan(s: Store, path: Path, j: Journal): Plan {
    var a := j.archive;
    var key := (path, j.fingerprint);
    if key in s.history && s.history[key] != a then REFUSED
    else
      var archive := if key in s.history then [] else [PutArchive(path, j.fingerprint, a)];
      if !CandidatesArchived(s, path, a) then Plan(archive, false)
      else Plan(archive + [DropReview(path), DropGate(path), PutReopen(path, j.(pending := false))], true)
  }

  function ReopenPlan(w: World, s: Store, path: Path, reason: string, session: string): Plan {
    if !Reopenable(w, s, path, reason, session) then REFUSED
    else
      match ChooseJournal(w, s, path, reason, session)
      case Deny => REFUSED
      case Resume(j) => FinishPlan(s, path, j)
      case Start(j) =>
        var rest := FinishPlan(s, path, j);
        Plan([PutReopen(path, j)] + rest.writes, rest.ok)
  }

  // ----- runs -----

  datatype Op =
    | RecordReview(path: Path, review: ReviewInput, reviewer: string, seen: Seen)
    | IssueGate(path: Path, issue: IssueInput, revalidated: bool)
    | Activate(activation: Activation)
    | Reopen(path: Path, reason: string, session: string)

  function PlanOf(w: World, s: Store, op: Op): Plan {
    match op
    case RecordReview(path, input, reviewer, seen) => ReviewPlan(w, s, path, input, reviewer, seen)
    case IssueGate(path, input, revalidated) => IssuePlan(w, s, path, input, revalidated)
    case Activate(a) => ActivatePlan(w, s, a)
    case Reopen(path, reason, session) => ReopenPlan(w, s, path, reason, session)
  }

  /** An operation in some world, stopped after `steps` writes. Requirement
      metadata and receipts may be rewritten by others before it. */
  datatype Act = Act(world: World, meta: map<string, Meta>, receipts: map<(string, string), Receipt>, op: Op, steps: nat)

  function Prefix(ws: seq<Write>, n: nat): seq<Write> {
    if n >= |ws| then ws else ws[..n]
  }

  function Before(s: Store, a: Act): Store {
    s.(meta := a.meta, receipts := a.receipts)
  }

  function Leaves(s: Store, a: Act): Store {
    ApplyAll(Before(s, a), Prefix(PlanOf(a.world, Before(s, a), a.op).writes, a.steps))
  }

  function Run(s: Store, acts: seq<Act>): Store
    decreases |acts|
  {
    if acts == [] then s else Run(Leaves(s, acts[0]), acts[1..])
  }

  const EMPTY: Store := Store(map[], map[], map[], map[], map[], map[], map[])
}
