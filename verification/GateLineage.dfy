/** Where the stored gates come from: each was valid when it was written, and in
    every reachable state each stands on the stored gate below it. */
module GateLineage {
  import opened Utf8
  import opened GateRecords
  import opened GateChain
  import GateTheorems
  import opened GateOps
  import opened GateRuns

  // ----- what gets written -----

  /** A review comes from what was checked, on the commit that is current when
      it is written; a gate carries the review on file at its path and is valid
      there and then; an activation is valid there and then. */
  ghost predicate Justified(w: World, s: Store, x: Write) {
    match x
    case PutReview(path, r) => NoPendingReopen(s, path) && w.clean && r.commit == w.head && ReviewFacts(r.attestation)
    case PutGate(path, g) =>
      && GateValid(w, s, g) && HasReview(s, path)
      && g.attestation == s.reviews[path].attestation && g.receipts == s.reviews[path].receipts
      && g.receiptFingerprints == s.reviews[path].receiptFingerprints && g.commit == s.reviews[path].commit
    case PutActivation(_, a) => ActivationValid(w, s, a)
    case _ => true
  }

  lemma IssueIsJustified(w: World, s: Store, path: Path, input: IssueInput, revalidated: bool, x: Write)
    requires x in IssuePlan(w, s, path, input, revalidated).writes
    ensures x.PutGate? && x.path == path && x.gate.requirement == path.0 && x.gate.phase == path.1 && Justified(w, s, x)
  {
    hide GateValid, Loadable, HasReceipt;
  }

  lemma ReviewIsJustified(w: World, s: Store, path: Path, input: ReviewInput, reviewer: string, seen: Seen, x: Write)
    requires x in ReviewPlan(w, s, path, input, reviewer, seen).writes
    ensures x.PutReview? && Justified(w, s, x)
  {
    hide PhaseActivated, ReceiptBindings, Definitions, ReviewFacts, ResultFacts, HasReceipt, NoPendingReopen;
  }

  lemma ActivationIsJustified(w: World, s: Store, a: Activation, x: Write)
    requires x in ActivatePlan(w, s, a).writes
    ensures x.PutActivation? && Justified(w, s, x)
  {
    hide ActivationValid;
  }

  /** Whatever an operation writes first is justified in the state it found. */
  lemma WritesAreJustified(w: World, s: Store, op: Op, x: Write)
    requires x in PlanOf(w, s, op).writes && !op.Reopen?
    ensures Justified(w, s, x) && PlanOf(w, s, op).writes == [x]
  {
    hide Justified;
    match op {
      case RecordReview(path, input, reviewer, seen) =>
        ReviewIsJustified(w, s, path, input, reviewer, seen, x);
        OneReview(w, s, path, input, reviewer, seen);
      case IssueGate(path, input, revalidated) =>
        IssueIsJustified(w, s, path, input, revalidated, x);
        OneGate(w, s, path, input, revalidated);
      case Activate(a) =>
        ActivationIsJustified(w, s, a, x);
        OneActivation(w, s, a);
    }
  }

  lemma OneReview(w: World, s: Store, path: Path, input: ReviewInput, reviewer: string, seen: Seen)
    ensures |ReviewPlan(w, s, path, input, reviewer, seen).writes| <= 1
  {
    hide Reviewable;
  }

  lemma OneGate(w: World, s: Store, path: Path, input: IssueInput, revalidated: bool)
    ensures |IssuePlan(w, s, path, input, revalidated).writes| <= 1
  {
    hide Issuable, GateValid;
  }

  lemma OneActivation(w: World, s: Store, a: Activation)
    ensures |ActivatePlan(w, s, a).writes| <= 1
  {
    hide ActivationValid;
  }

  // ----- every stored gate stands on the one below -----

  /** The gate names the stored gate below it by phase, commit and content, and
      lies after its own activation, which lies after that gate. */
  predicate Stands(s: Store, path: Path) {
    path in s.gates && path.1 > 0 ==>
      var below := (path.0, path.1 - 1);
      && path in s.activations && below in s.gates && Linked(s.gates[path], s.gates[below])
      && s.gates[below].issuedAt <= s.activations[path].activatedAt <= s.gates[path].issuedAt
  }

  ghost predicate Lineage(s: Store) {
    forall path :: Stands(s, path)
  }

  lemma ValidGateStands(w: World, s: Store, path: Path, g: Gate)
    requires Sound(s) && GateValid(w, s, g) && g.requirement == path.0 && g.phase == path.1
    ensures Stands(s.(gates := s.gates[path := g]), path)
  {
    hide ChainValid, IsAncestor, Frozen, Definitions, Answers, ResultFacts, ReviewFacts, NoPendingReopen, ReceiptBindings,
      Declared, DeclaredFor, PassFacts, WellFiled, ActivationValid;
    if path.1 > 0 {
      var a := s.activations[path];
      var below := (path.0, path.1 - 1);
      assert PinsGate(a, s.gates[below]);
      GateTheorems.FirstReceiptTimes(w, s, g, DeclaredFor(w.commits, g), a.activatedAt);
    }
  }

  lemma OthersStand(s: Store, x: Write, path: Path)
    requires Sound(s) && Safe(s, x) && Stands(s, path) && !(x.PutGate? && x.path == path)
    ensures Stands(Apply(s, x), path)
  {
    hide WellFiled, PinsGate, Linked, ReadReopen;
    if path in s.gates && path.1 > 0 && x.DropGate? {
      var below := (path.0, path.1 - 1);
      assert (below.0, below.1 + 1) == path;
    }
  }

  lemma WriteKeepsLineage(w: World, s: Store, x: Write)
    requires Sound(s) && Safe(s, x) && Lineage(s) && (x.PutGate? ==> GateValid(w, s, x.gate))
    ensures Lineage(Apply(s, x))
  {
    hide Sound, GateValid, Stands;
    forall path ensures Stands(Apply(s, x), path) {
      assert Stands(s, path);
      if x.PutGate? && x.path == path { ValidGateStands(w, s, path, x.gate); } else { OthersStand(s, x, path); }
    }
  }

  lemma {:induction false} WritesKeepLineage(w: World, s: Store, ws: seq<Write>)
    requires Sound(s) && SafeAll(s, ws) && Lineage(s)
    requires forall x | x in ws :: x.PutGate? ==> ws == [x] && GateValid(w, s, x.gate)
    ensures Lineage(ApplyAll(s, ws))
    decreases |ws|
  {
    hide Sound, Lineage, Safe, GateValid;
    if ws != [] {
      assert ws[0] in ws;
      WriteKeepsLineage(w, s, ws[0]);
      ApplyIsSound(s, ws[0]);
      forall x | x in ws[1..] ensures !x.PutGate? { assert x in ws; }
      WritesKeepLineage(w, Apply(s, ws[0]), ws[1..]);
    }
  }

  lemma PlanGates(w: World, s: Store, op: Op, n: nat)
    ensures var ws := Prefix(PlanOf(w, s, op).writes, n);
            forall x | x in ws :: x.PutGate? ==> ws == [x] && GateValid(w, s, x.gate)
  {
    hide PlanOf, GateValid;
    var all := PlanOf(w, s, op).writes;
    var ws := Prefix(all, n);
    forall x | x in ws && x.PutGate? ensures ws == [x] && GateValid(w, s, x.gate) {
      assert x in all;
      if op.Reopen? {
        ReopenPutsNothing(w, s, op, x);
      } else {
        WritesAreJustified(w, s, op, x);
      }
    }
  }

  lemma ReopenPutsNothing(w: World, s: Store, op: Op, x: Write)
    requires op.Reopen? && x in PlanOf(w, s, op).writes
    ensures !x.PutGate? && !x.PutActivation?
  {
    hide Reopenable, CandidatesArchived, ReadReopen;
  }

  lemma StepKeepsLineage(s: Store, a: Act)
    requires Sound(s) && Lineage(s)
    ensures Lineage(Leaves(s, a))
  {
    hide Sound, PlanOf, SafeAll, Keeps, Stands;
    var b := Before(s, a);
    BeforeIsSound(s, a);
    forall path ensures Stands(b, path) {
      assert Stands(s, path);
      SameStands(s, a, path);
    }
    PlanIsSafe(a.world, b, a.op);
    SafePrefix(b, PlanOf(a.world, b, a.op).writes, a.steps);
    PlanGates(a.world, b, a.op, a.steps);
    WritesKeepLineage(a.world, b, Prefix(PlanOf(a.world, b, a.op).writes, a.steps));
  }

  lemma SameStands(s: Store, a: Act, path: Path)
    ensures Stands(Before(s, a), path) == Stands(s, path)
  {
  }

  lemma {:induction false} RunKeepsLineage(s: Store, acts: seq<Act>)
    requires Sound(s) && Lineage(s)
    ensures Lineage(Run(s, acts))
    decreases |acts|
  {
    hide Sound, Lineage, Leaves;
    if acts != [] {
      StepKeeps(s, acts[0]);
      StepKeepsLineage(s, acts[0]);
      RunKeepsLineage(Leaves(s, acts[0]), acts[1..]);
    }
  }

  lemma EmptyLineage()
    ensures Lineage(EMPTY)
  {
  }

  /** In every reachable state the stored gates of a requirement are a chain:
      each names the stored gate below it by phase, commit and content, with an
      activation in between, in time as in phase. */
  lemma StoredGatesAreChained(acts: seq<Act>, path: Path)
    requires path in Run(EMPTY, acts).gates && path.1 > 0
    ensures var s := Run(EMPTY, acts);
            var below := (path.0, path.1 - 1);
            && below in s.gates && Linked(s.gates[path], s.gates[below]) && path in s.activations
            && PinsGate(s.activations[path], s.gates[below])
            && s.gates[below].issuedAt <= s.activations[path].activatedAt <= s.gates[path].issuedAt
  {
    hide Run, Lineage, WellFiled, PinsGate, Linked;
    EmptyIsSound();
    EmptyLineage();
    RunKeeps(EMPTY, acts);
    RunKeepsLineage(EMPTY, acts);
    AtLineage(Run(EMPTY, acts), path);
  }

  lemma AtLineage(s: Store, path: Path)
    requires Lineage(s)
    ensures Stands(s, path)
  {
    hide Stands;
  }
}
