/** What every run of the gate operations keeps, wherever crashes stop them. */
module GateRuns {
  import opened Utf8
  import opened Strings
  import opened GateRecords
  import opened GateChain
  import opened GateOps

  // ----- the invariant -----

  /** Every file holds a record of its own path, every archive is filed under
      its own fingerprint, every journal can be read. */
  predicate WellFiled(s: Store) {
    && (forall p | p in s.gates :: s.gates[p].requirement == p.0 && s.gates[p].phase == p.1)
    && (forall p | p in s.activations :: HasActivation(s, p))
    && (forall p | p in s.reviews :: HasReview(s, p))
    && (forall k | k in s.history :: k.1 == OfArchive(s.history[k]))
    && (forall p | p in s.reopens :: ReadReopen(s, p).ReadJournal?)
  }

  predicate PinsGate(a: Activation, g: Gate) {
    && a.predecessorPhase == g.phase && a.predecessorCommit == g.commit && a.predecessorFingerprint == OfGate(g)
    && g.issuedAt <= a.activatedAt
  }

  /** Every activation stands on the gate below it, exactly as recorded. */
  predicate Pinned(s: Store) {
    forall p | p in s.activations ::
      (p.0, p.1 - 1) in s.gates && PinsGate(s.activations[p], s.gates[(p.0, p.1 - 1)])
  }

  predicate Sound(s: Store) {
    WellFiled(s) && Pinned(s)
  }

  // ----- nothing is lost -----

  predicate GateKept(s: Store, path: Path, g: Gate) {
    (path in s.gates && s.gates[path] == g) || (exists k | k in s.history :: k.0 == path && s.history[k].gate == Some(g))
  }

  predicate ReviewKept(s: Store, path: Path, r: Review) {
    (path in s.reviews && s.reviews[path] == r) || (exists k | k in s.history :: k.0 == path && s.history[k].review == Some(r))
  }

  predicate GatesKept(s: Store, s': Store) {
    forall p | p in s.gates :: GateKept(s', p, s.gates[p])
  }

  predicate ReviewsKept(s: Store, s': Store) {
    forall p | p in s.reviews :: ReviewKept(s', p, s.reviews[p])
  }

  /** Activations and archives are only added, and a gate an activation stands
      on stays. */
  predicate Grows(s: Store, s': Store) {
    && (forall p | p in s.activations :: p in s'.activations && s'.activations[p] == s.activations[p])
    && (forall k | k in s.history :: k in s'.history && s'.history[k] == s.history[k])
    && (forall p | p in s.activations && (p.0, p.1 - 1) in s.gates ::
          (p.0, p.1 - 1) in s'.gates && s'.gates[(p.0, p.1 - 1)] == s.gates[(p.0, p.1 - 1)])
  }

  predicate Keeps(s: Store, s': Store) {
    GatesKept(s, s') && ReviewsKept(s, s') && Grows(s, s')
  }

  lemma KeepsTransitive(s: Store, t: Store, u: Store)
    requires Keeps(s, t) && Keeps(t, u)
    ensures Keeps(s, u)
  {
    forall p | p in s.gates ensures GateKept(u, p, s.gates[p]) { GateStays(t, u, p, s.gates[p]); }
    forall p | p in s.reviews ensures ReviewKept(u, p, s.reviews[p]) { ReviewStays(t, u, p, s.reviews[p]); }
  }

  lemma GateStays(s: Store, s': Store, path: Path, g: Gate)
    requires GateKept(s, path, g) && GatesKept(s, s') && Grows(s, s')
    ensures GateKept(s', path, g)
  {
    if !(path in s.gates && s.gates[path] == g) {
      var k :| k in s.history && k.0 == path && s.history[k].gate == Some(g);
      assert k in s'.history && s'.history[k].gate == Some(g);
    }
  }

  lemma ReviewStays(s: Store, s': Store, path: Path, r: Review)
    requires ReviewKept(s, path, r) && ReviewsKept(s, s') && Grows(s, s')
    ensures ReviewKept(s', path, r)
  {
    if !(path in s.reviews && s.reviews[path] == r) {
      var k :| k in s.history && k.0 == path && s.history[k].review == Some(r);
      assert k in s'.history && s'.history[k].review == Some(r);
    }
  }

  // ----- one write -----

  /** When a write keeps the invariant and loses nothing. */
  predicate Safe(s: Store, w: Write) {
    match w
    case PutReview(p, r) => p !in s.reviews && r.requirement == p.0 && r.phase == p.1
    case PutGate(p, g) => p !in s.gates && g.requirement == p.0 && g.phase == p.1
    case PutActivation(p, a) =>
      && p !in s.activations && a.requirement == p.0 && a.phase == p.1
      && (p.0, p.1 - 1) in s.gates && PinsGate(a, s.gates[(p.0, p.1 - 1)])
    case PutReopen(p, j) => ReadReopen(s.(reopens := s.reopens[p := j]), p).ReadJournal?
    case PutArchive(p, d, a) => (p, d) !in s.history && d == OfArchive(a)
    case DropReview(p) =>
      p in s.reviews ==> exists k | k in s.history :: k.0 == p && s.history[k].review == Some(s.reviews[p])
    case DropGate(p) =>
      && (p.0, p.1 + 1) !in s.activations
      && (p in s.gates ==> exists k | k in s.history :: k.0 == p && s.history[k].gate == Some(s.gates[p]))
  }

  predicate SafeAll(s: Store, ws: seq<Write>)
    decreases |ws|
  {
    ws != [] ==> Safe(s, ws[0]) && SafeAll(Apply(s, ws[0]), ws[1..])
  }

  lemma ApplyIsSound(s: Store, w: Write)
    requires Sound(s) && Safe(s, w)
    ensures Sound(Apply(s, w))
  {
    hide Apply, Safe, ReadReopen, HasReview, HasActivation, Pinned;
    FilesStay(s, w);
    JournalsStay(s, w);
    PinsStay(s, w);
  }

  lemma FilesStay(s: Store, w: Write)
    requires WellFiled(s) && Safe(s, w)
    ensures var s' := Apply(s, w);
            && (forall p | p in s'.gates :: s'.gates[p].requirement == p.0 && s'.gates[p].phase == p.1)
            && (forall p | p in s'.activations :: HasActivation(s', p))
            && (forall p | p in s'.reviews :: HasReview(s', p))
            && (forall k | k in s'.history :: k.1 == OfArchive(s'.history[k]))
  {
    hide ReadReopen;
    var s' := Apply(s, w);
    forall p | p in s'.activations ensures HasActivation(s', p) { assert p in s.activations ==> HasActivation(s, p); }
    forall p | p in s'.reviews ensures HasReview(s', p) { assert p in s.reviews ==> HasReview(s, p); }
  }

  lemma JournalsStay(s: Store, w: Write)
    requires WellFiled(s) && Safe(s, w)
    ensures forall p | p in Apply(s, w).reopens :: ReadReopen(Apply(s, w), p).ReadJournal?
  {
    hide HasReview, HasActivation;
    var s' := Apply(s, w);
    forall p | p in s'.reopens ensures ReadReopen(s', p).ReadJournal? {
      if w.PutReopen? && w.path == p {
        ReadsOnly(s.(reopens := s.reopens[p := w.journal]), s', p);
      } else {
        assert ReadReopen(s, p).ReadJournal?;
        ReadsOnly(s, s', p);
      }
    }
  }

  lemma ReadsOnly(s: Store, s': Store, path: Path)
    requires At(s.reopens, path) == At(s'.reopens, path)
    ensures ReadReopen(s, path) == ReadReopen(s', path)
  {
  }

  lemma PinsStay(s: Store, w: Write)
    requires Sound(s) && Safe(s, w)
    ensures Pinned(Apply(s, w))
  {
    hide WellFiled, PinsGate, ReadReopen;
    var s' := Apply(s, w);
    forall p | p in s'.activations
      ensures (p.0, p.1 - 1) in s'.gates && PinsGate(s'.activations[p], s'.gates[(p.0, p.1 - 1)])
    {
      if p in s.activations { assert (p.0, p.1 - 1) in s.gates && (p.0, p.1 - 1 + 1) == p; }
    }
  }

  lemma ApplyKeeps(s: Store, w: Write)
    requires Safe(s, w) && Sound(s)
    ensures Keeps(s, Apply(s, w))
  {
    hide Sound, Safe, Apply, GatesKept, ReviewsKept, Grows;
    ApplyGrows(s, w);
    ApplyKeepsGates(s, w);
    ApplyKeepsReviews(s, w);
  }

  lemma ApplyGrows(s: Store, w: Write)
    requires Safe(s, w)
    ensures Grows(s, Apply(s, w))
  {
    var s' := Apply(s, w);
    forall p | p in s.activations && (p.0, p.1 - 1) in s.gates
      ensures (p.0, p.1 - 1) in s'.gates && s'.gates[(p.0, p.1 - 1)] == s.gates[(p.0, p.1 - 1)]
    {
      assert (p.0, p.1 - 1 + 1) == p;
    }
  }

  lemma ApplyKeepsGates(s: Store, w: Write)
    requires Safe(s, w)
    ensures GatesKept(s, Apply(s, w))
  {
    var s' := Apply(s, w);
    forall p | p in s.gates ensures GateKept(s', p, s.gates[p]) {
      if w == DropGate(p) {
        var k :| k in s.history && k.0 == p && s.history[k].gate == Some(s.gates[p]);
        assert k in s'.history;
      } else {
        assert p in s'.gates;
      }
    }
  }

  lemma ApplyKeepsReviews(s: Store, w: Write)
    requires Safe(s, w)
    ensures ReviewsKept(s, Apply(s, w))
  {
    var s' := Apply(s, w);
    forall p | p in s.reviews ensures ReviewKept(s', p, s.reviews[p]) {
      if w == DropReview(p) {
        var k :| k in s.history && k.0 == p && s.history[k].review == Some(s.reviews[p]);
        assert k in s'.history;
      } else {
        assert p in s'.reviews;
      }
    }
  }

  lemma {:induction false} SafeWrites(s: Store, ws: seq<Write>)
    requires Sound(s) && SafeAll(s, ws)
    ensures Sound(ApplyAll(s, ws)) && Keeps(s, ApplyAll(s, ws))
    decreases |ws|
  {
    hide Sound, Keeps, Safe;
    if ws == [] {
      KeepsItself(s);
    } else {
      ApplyIsSound(s, ws[0]);
      ApplyKeeps(s, ws[0]);
      SafeWrites(Apply(s, ws[0]), ws[1..]);
      KeepsTransitive(s, Apply(s, ws[0]), ApplyAll(s, ws));
    }
  }

  lemma KeepsItself(s: Store)
    ensures Keeps(s, s)
  {
  }

  lemma {:induction false} SafePrefix(s: Store, ws: seq<Write>, n: nat)
    requires SafeAll(s, ws)
    ensures SafeAll(s, Prefix(ws, n))
    decreases |ws|
  {
    hide Safe;
    if 0 < n < |ws| {
      SafePrefix(Apply(s, ws[0]), ws[1..], n - 1);
      assert Prefix(ws, n)[1..] == Prefix(ws[1..], n - 1);
    }
  }

  // ----- every operation writes safely -----

  lemma FinishIsSafe(s: Store, path: Path, j: Journal)
    requires (path.0, path.1 + 1) !in s.activations
    requires ReadReopen(s.(reopens := s.reopens[path := j]), path).ReadJournal?
    ensures SafeAll(s, FinishPlan(s, path, j).writes)
  {
    hide Safe, SafeAll, ReadReopen, Apply, CandidatesArchived;
    var put := PutArchive(path, j.fingerprint, j.archive);
    var last := [DropReview(path), DropGate(path), PutReopen(path, j.(pending := false))];
    SafeNothing(s);
    if (path, j.fingerprint) !in s.history {
      var s1 := Apply(s, put);
      ArchiveIsSafe(s, path, j);
      SafeNothing(s1);
      if CandidatesArchived(s, path, j.archive) { RemovalIsSafe(s1, path, j); }
      SafeThen(s, put, if CandidatesArchived(s, path, j.archive) then last else []);
      assert [put] + [] == [put];
    } else if s.history[(path, j.fingerprint)] == j.archive && CandidatesArchived(s, path, j.archive) {
      RemovalIsSafe(s, path, j);
      assert [] + last == last;
    }
  }

  lemma SafeThen(s: Store, w: Write, ws: seq<Write>)
    requires Safe(s, w) && SafeAll(Apply(s, w), ws)
    ensures SafeAll(s, [w] + ws)
  {
    hide Safe, Apply;
    assert ([w] + ws)[1..] == ws;
  }

  lemma SafeNothing(s: Store)
    ensures SafeAll(s, [])
  {
  }

  lemma ArchiveIsSafe(s: Store, path: Path, j: Journal)
    requires ReadReopen(s.(reopens := s.reopens[path := j]), path).ReadJournal?
    requires (path, j.fingerprint) !in s.history
    ensures var s' := Apply(s, PutArchive(path, j.fingerprint, j.archive));
            && Safe(s, PutArchive(path, j.fingerprint, j.archive))
            && ReadReopen(s'.(reopens := s'.reopens[path := j]), path).ReadJournal?
            && (path, j.fingerprint) in s'.history && s'.history[(path, j.fingerprint)] == j.archive
            && s'.activations == s.activations
            && CandidatesArchived(s', path, j.archive) == CandidatesArchived(s, path, j.archive)
  {
  }

  lemma RemovalIsSafe(s: Store, path: Path, j: Journal)
    requires (path.0, path.1 + 1) !in s.activations
    requires ReadReopen(s.(reopens := s.reopens[path := j]), path).ReadJournal?
    requires (path, j.fingerprint) in s.history && s.history[(path, j.fingerprint)] == j.archive
    requires CandidatesArchived(s, path, j.archive)
    ensures SafeAll(s, [DropReview(path), DropGate(path), PutReopen(path, j.(pending := false))])
  {
    hide Safe, SafeAll, ReadReopen;
    var drop, gone, done := DropReview(path), DropGate(path), PutReopen(path, j.(pending := false));
    var s1 := Apply(s, drop);
    var s2 := Apply(s1, gone);
    DropsAreSafe(s, path, j.fingerprint);
    DropsAreSafe(s1, path, j.fingerprint);
    CompletionIsSafe(s, s2, path, j);
    SafeNothing(Apply(s2, done));
    SafeThen(s2, done, []);
    assert [done] + [] == [done];
    SafeThen(s1, gone, [done]);
    assert [gone] + [done] == [gone, done];
    SafeThen(s, drop, [gone, done]);
    assert [drop] + [gone, done] == [drop, gone, done];
  }

  lemma DropsAreSafe(s: Store, path: Path, d: Digest)
    requires (path.0, path.1 + 1) !in s.activations && (path, d) in s.history
    requires CandidatesArchived(s, path, s.history[(path, d)])
    ensures Safe(s, DropReview(path)) && Safe(s, DropGate(path))
  {
  }

  lemma CompletionIsSafe(s: Store, s': Store, path: Path, j: Journal)
    requires ReadReopen(s.(reopens := s.reopens[path := j]), path).ReadJournal?
    ensures Safe(s', PutReopen(path, j.(pending := false)))
  {
  }

  lemma NewJournalReads(w: World, s: Store, path: Path, reason: string, session: string)
    requires Reopenable(w, s, path, reason, session)
    ensures var j := NewJournal(NewArchive(w, s, path, reason, session));
            ReadReopen(s.(reopens := s.reopens[path := j]), path) == ReadJournal(j)
  {
    hide PhaseActivated;
    DefinitionsFacts(w.commits, w.head, path.0);
    StripFacts(reason);
    assert Loadable(w.commits, w.head, path);
  }

  lemma ReopenIsSafe(w: World, s: Store, path: Path, reason: string, session: string)
    requires Sound(s)
    ensures SafeAll(s, ReopenPlan(w, s, path, reason, session).writes)
  {
    hide FinishPlan, SafeAll, Reopenable, ReadReopen, NewArchive, Sound;
    if Reopenable(w, s, path, reason, session) {
      assert (path.0, path.1 + 1) !in s.activations by { ReopenableFacts(w, s, path, reason, session); }
      match ChooseJournal(w, s, path, reason, session) {
        case Deny =>
        case Resume(j) =>
          ResumedReads(w, s, path, reason, session);
          FinishIsSafe(s, path, j);
        case Start(j) =>
          NewJournalReads(w, s, path, reason, session);
          StartIsSafe(w, s, path, j);
      }
    }
    assert SafeAll(s, REFUSED.writes) by { SafeNothing(s); }
  }

  lemma ReopenableFacts(w: World, s: Store, path: Path, reason: string, session: string)
    requires Reopenable(w, s, path, reason, session)
    ensures (path.0, path.1 + 1) !in s.activations
  {
    hide PhaseActivated, Definitions;
  }

  lemma ResumedReads(w: World, s: Store, path: Path, reason: string, session: string)
    requires ChooseJournal(w, s, path, reason, session).Resume?
    ensures var j := ChooseJournal(w, s, path, reason, session).journal;
            path in s.reopens && s.reopens[path] == j && ReadReopen(s.(reopens := s.reopens[path := j]), path) == ReadJournal(j)
            && j.archive.reason == Strip(reason)
  {
  }

  lemma StartIsSafe(w: World, s: Store, path: Path, j: Journal)
    requires Sound(s) && (path.0, path.1 + 1) !in s.activations
    requires ReadReopen(s.(reopens := s.reopens[path := j]), path).ReadJournal?
    ensures SafeAll(s, [PutReopen(path, j)] + FinishPlan(s, path, j).writes)
  {
    hide FinishPlan, Sound, ReadReopen;
    var s1 := Apply(s, PutReopen(path, j));
    ApplyIsSound(s, PutReopen(path, j));
    assert s1.reopens[path := j] == s1.reopens;
    FinishIsSafe(s1, path, j);
    assert FinishPlan(s1, path, j) == FinishPlan(s, path, j) by { FinishIgnoresJournal(s, path, j, j); }
    var ws := [PutReopen(path, j)] + FinishPlan(s, path, j).writes;
    assert ws[1..] == FinishPlan(s, path, j).writes;
  }

  lemma FinishIgnoresJournal(s: Store, path: Path, j: Journal, other: Journal)
    ensures FinishPlan(s.(reopens := s.reopens[path := other]), path, j) == FinishPlan(s, path, j)
  {
  }

  lemma IssueIsSafe(w: World, s: Store, path: Path, input: IssueInput, revalidated: bool)
    ensures SafeAll(s, IssuePlan(w, s, path, input, revalidated).writes)
  {
    hide GateValid, Issuable;
  }

  lemma ReviewIsSafe(w: World, s: Store, path: Path, input: ReviewInput, reviewer: string, seen: Seen)
    ensures SafeAll(s, ReviewPlan(w, s, path, input, reviewer, seen).writes)
  {
    hide Reviewable;
  }

  /** What a valid activation says of the gate below. */
  lemma ValidNames(w: World, s: Store, a: Activation)
    requires ActivationValid(w, s, a)
    ensures a.predecessorPhase == a.phase - 1 && (a.requirement, a.phase - 1) in s.gates
    ensures var g := s.gates[(a.requirement, a.phase - 1)];
            a.predecessorCommit == g.commit && a.predecessorFingerprint == OfGate(g) && g.issuedAt <= a.activatedAt
  {
    hide ChainValid, Load, IsAncestor;
  }

  lemma ActivationIsSafe(w: World, s: Store, a: Activation)
    requires WellFiled(s) && ActivationValid(w, s, a) && (a.requirement, a.phase) !in s.activations
    ensures Safe(s, PutActivation((a.requirement, a.phase), a))
  {
    hide ActivationValid, ReadReopen, HasReview, HasActivation;
    ValidNames(w, s, a);
  }

  lemma ActivateIsSafe(w: World, s: Store, a: Activation)
    requires Sound(s)
    ensures SafeAll(s, ActivatePlan(w, s, a).writes)
  {
    hide ActivationValid, WellFiled, Pinned, Safe, SafeAll, Apply;
    var path := (a.requirement, a.phase);
    SafeNothing(s);
    if ActivationValid(w, s, a) && path !in s.activations {
      ActivationIsSafe(w, s, a);
      SafeNothing(Apply(s, PutActivation(path, a)));
      SafeThen(s, PutActivation(path, a), []);
      assert [PutActivation(path, a)] + [] == [PutActivation(path, a)];
    }
  }

  lemma PlanIsSafe(w: World, s: Store, op: Op)
    requires Sound(s)
    ensures SafeAll(s, PlanOf(w, s, op).writes)
  {
    hide SafeAll, Sound, ReviewPlan, IssuePlan, ActivatePlan, ReopenPlan;
    match op {
      case RecordReview(path, input, reviewer, seen) => ReviewIsSafe(w, s, path, input, reviewer, seen);
      case IssueGate(path, input, revalidated) => IssueIsSafe(w, s, path, input, revalidated);
      case Activate(a) => ActivateIsSafe(w, s, a);
      case Reopen(path, reason, session) => ReopenIsSafe(w, s, path, reason, session);
    }
  }

  // ----- runs -----

  lemma BeforeIsSound(s: Store, a: Act)
    requires Sound(s)
    ensures Sound(Before(s, a)) && Keeps(s, Before(s, a))
  {
    var b := Before(s, a);
    forall q | q in b.reopens ensures ReadReopen(b, q).ReadJournal? { assert ReadReopen(s, q).ReadJournal?; }
    forall p | p in s.gates ensures GateKept(b, p, s.gates[p]) {}
    forall p | p in s.reviews ensures ReviewKept(b, p, s.reviews[p]) {}
  }

  /** One operation, stopped after any of its writes. */
  lemma StepKeeps(s: Store, a: Act)
    requires Sound(s)
    ensures Sound(Leaves(s, a)) && Keeps(s, Leaves(s, a))
  {
    hide Sound, Keeps, SafeAll, PlanOf;
    var b := Before(s, a);
    BeforeIsSound(s, a);
    PlanIsSafe(a.world, b, a.op);
    SafePrefix(b, PlanOf(a.world, b, a.op).writes, a.steps);
    SafeWrites(b, Prefix(PlanOf(a.world, b, a.op).writes, a.steps));
    KeepsTransitive(s, b, Leaves(s, a));
  }

  lemma {:induction false} RunKeeps(s: Store, acts: seq<Act>)
    requires Sound(s)
    ensures Sound(Run(s, acts)) && Keeps(s, Run(s, acts))
    decreases |acts|
  {
    hide Sound, Keeps, Leaves;
    if acts == [] {
      KeepsItself(s);
    } else {
      StepKeeps(s, acts[0]);
      RunKeeps(Leaves(s, acts[0]), acts[1..]);
      KeepsTransitive(s, Leaves(s, acts[0]), Run(s, acts));
    }
  }

  lemma {:induction false} RunSplits(s: Store, first: seq<Act>, rest: seq<Act>)
    ensures Run(s, first + rest) == Run(Run(s, first), rest)
    decreases |first|
  {
    hide Leaves;
    if first == [] {
      assert first + rest == rest;
    } else {
      RunSplits(Leaves(s, first[0]), first[1..], rest);
      assert (first + rest)[1..] == first[1..] + rest;
    }
  }

  lemma EmptyIsSound()
    ensures Sound(EMPTY)
  {
  }

  /** The file at path (r, k) holds a record of requirement r and phase k, in
      every reachable state. */
  lemma FilesMatchPaths(acts: seq<Act>, path: Path)
    ensures var s := Run(EMPTY, acts);
            && (path in s.gates ==> s.gates[path].requirement == path.0 && s.gates[path].phase == path.1)
            && (path in s.reviews ==> s.reviews[path].requirement == path.0 && s.reviews[path].phase == path.1)
            && (path in s.activations ==> s.activations[path].requirement == path.0 && s.activations[path].phase == path.1)
  {
    hide Run;
    EmptyIsSound();
    RunKeeps(EMPTY, acts);
    var s := Run(EMPTY, acts);
    assert path in s.reviews ==> HasReview(s, path);
    assert path in s.activations ==> HasActivation(s, path);
  }

  lemma PinnedAt(s: Store, s': Store, path: Path)
    requires Sound(s) && Grows(s, s') && path in s.activations
    ensures var below := (path.0, path.1 - 1);
            && below in s.gates && PinsGate(s.activations[path], s.gates[below])
            && path in s'.activations && s'.activations[path] == s.activations[path]
            && below in s'.gates && s'.gates[below] == s.gates[below]
  {
    hide WellFiled, PinsGate;
  }

  /** In every reachable state an activation of phase p stands on the gate of
      phase p - 1, with the recorded commit and fingerprint; and from then on
      neither of the two ever changes or goes away. */
  lemma PinnedForever(before: seq<Act>, after: seq<Act>, path: Path)
    requires path in Run(EMPTY, before).activations
    ensures var s, s' := Run(EMPTY, before), Run(EMPTY, before + after);
            var below := (path.0, path.1 - 1);
            && below in s.gates && PinsGate(s.activations[path], s.gates[below])
            && path in s'.activations && s'.activations[path] == s.activations[path]
            && below in s'.gates && s'.gates[below] == s.gates[below]
  {
    hide Run, Sound, GatesKept, ReviewsKept, Grows, PinsGate;
    EmptyIsSound();
    RunKeeps(EMPTY, before);
    RunSplits(EMPTY, before, after);
    RunKeeps(Run(EMPTY, before), after);
    PinnedAt(Run(EMPTY, before), Run(EMPTY, before + after), path);
  }

  /** Every review and every gate ever stored is still at its path or inside an
      archive of that path. */
  lemma NothingLost(before: seq<Act>, after: seq<Act>, path: Path)
    ensures var s, s' := Run(EMPTY, before), Run(EMPTY, before + after);
            && (path in s.gates ==> GateKept(s', path, s.gates[path]))
            && (path in s.reviews ==> ReviewKept(s', path, s.reviews[path]))
            && forall k | k in s.history :: k in s'.history && s'.history[k] == s.history[k]
  {
    hide Run, Sound, GateKept, ReviewKept;
    EmptyIsSound();
    RunKeeps(EMPTY, before);
    RunSplits(EMPTY, before, after);
    RunKeeps(Run(EMPTY, before), after);
  }
}
