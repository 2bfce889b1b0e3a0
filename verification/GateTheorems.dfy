/** What a validated chain of gates guarantees. */
module GateTheorems {
  import opened Utf8
  import opened Strings
  import opened GateRecords
  import opened GateChain

  // ----- the recursion is a single pass -----

  /** Everything the code checks of one activation and its predecessor gate,
      without going further down. */
  ghost predicate ActivationStands(w: World, s: Store, a: Activation) {
    && ActivationFacts(w.now, a)
    && (a.requirement, a.predecessorPhase) in s.gates
    && ActivationBinds(w, a, s.gates[(a.requirement, a.predecessorPhase)])
  }

  /** Everything the code checks of one gate of a chain, its own activation
      included, without going further down. */
  ghost predicate Link(w: World, s: Store, g: Gate) {
    && Standing(w, s, g)
    && g.phase >= 0
    && if g.phase == 0 then ReceiptsBind(w, s, g, None) && NoLinks(g)
       else
         && HasPrevious(s, g)
         && Succeeds(w.commits, g, Previous(s, g))
         && HasActivation(s, (g.requirement, g.phase))
         && var a := s.activations[(g.requirement, g.phase)];
         && ActivationStands(w, s, a)
         && ForTask(w.commits, g, a)
         && ReceiptsBind(w, s, g, Some(a.activatedAt))
  }

  /** The gate of phase `k` of the chain that ends in `g`. */
  function GateAt(s: Store, g: Gate, k: int): Gate
    requires k == g.phase || (g.requirement, k) in s.gates
  {
    if k == g.phase then g else s.gates[(g.requirement, k)]
  }

  /** Every phase below the gate's own has its gate at its path. */
  predicate Complete(s: Store, g: Gate) {
    forall k | 0 <= k < g.phase ::
      (g.requirement, k) in s.gates && s.gates[(g.requirement, k)].requirement == g.requirement
      && s.gates[(g.requirement, k)].phase == k
  }

  /** The chain is complete and each of its gates passes its own checks: one
      look at each phase. */
  ghost predicate FlatValid(w: World, s: Store, g: Gate) {
    && g.phase >= 0 && Complete(s, g)
    && forall k | 0 <= k <= g.phase :: Link(w, s, GateAt(s, g, k))
  }

  /** The mutual recursion, which visits phase k exponentially often, accepts
      exactly the chains that the single pass accepts. */
  lemma {:induction false} ChainIsFlat(w: World, s: Store, g: Gate)
    ensures ChainValid(w, s, g) <==> FlatValid(w, s, g)
    decreases Rank(g.phase)
  {
    hide Standing, ReceiptsBind, Succeeds, ForTask, ActivationBinds, ActivationFacts;
    if g.phase == 0 {
      assert FlatValid(w, s, g) <==> Link(w, s, g) by { assert GateAt(s, g, 0) == g; }
    } else if g.phase > 0 && HasPrevious(s, g) {
      var p := Previous(s, g);
      ChainIsFlat(w, s, p);
      FlatStep(w, s, g);
      if HasActivation(s, (g.requirement, g.phase)) { ActivationOfChain(w, s, g); }
    }
  }

  lemma FlatStep(w: World, s: Store, g: Gate)
    requires g.phase > 0 && HasPrevious(s, g)
    ensures FlatValid(w, s, g) <==> FlatValid(w, s, Previous(s, g)) && Link(w, s, g)
  {
    hide Link;
    var p := Previous(s, g);
    if FlatValid(w, s, g) {
      assert Link(w, s, GateAt(s, g, g.phase));
      forall k | 0 <= k <= p.phase ensures Link(w, s, GateAt(s, p, k)) { assert GateAt(s, g, k) == GateAt(s, p, k); }
    }
    if FlatValid(w, s, p) && Link(w, s, g) {
      forall k | 0 <= k <= g.phase ensures Link(w, s, GateAt(s, g, k)) {
        if k < g.phase { assert GateAt(s, g, k) == GateAt(s, p, k); }
      }
    }
  }

  /** The activation of a phase is judged by the gate right below it. */
  lemma ActivationOfChain(w: World, s: Store, g: Gate)
    requires g.phase > 0 && HasPrevious(s, g) && HasActivation(s, (g.requirement, g.phase))
    ensures var a := s.activations[(g.requirement, g.phase)];
            ActivationValid(w, s, a) <==> ActivationStands(w, s, a) && ChainValid(w, s, Previous(s, g))
  {
    hide ActivationBinds, ChainValid;
  }

  // ----- time -----

  /** A receipt's run lies between the phase's activation and its review. */
  predicate Timely(s: Store, g: Gate, r: Receipt) {
    && r.startedAt <= r.completedAt <= g.attestation.reviewedAt <= g.issuedAt
    && (g.phase > 0 ==> (g.requirement, g.phase) in s.activations
                        && s.activations[(g.requirement, g.phase)].activatedAt <= r.startedAt)
  }

  /** activated(k) <= every receipt's start <= its end <= reviewed(k) <=
      issued(k), for the gate of one phase. */
  lemma LinkTimes(w: World, s: Store, g: Gate)
    requires Link(w, s, g)
    ensures forall i | 0 <= i < |g.receipts| ::
              HasReceipt(s, g.requirement, g.receipts[i]) && Timely(s, g, s.receipts[(g.requirement, g.receipts[i])])
    ensures g.phase > 0 ==>
              (HasPrevious(s, g) && (g.requirement, g.phase) in s.activations
               && Previous(s, g).issuedAt <= s.activations[(g.requirement, g.phase)].activatedAt <= g.issuedAt)
  {
    hide Frozen, Definitions, Declared, DeclaredFor, ResultFacts, ReviewFacts, NoPendingReopen, Succeeds, ReceiptBindings, ForTask,
      HasReceipt, NoLinks;
    var notBefore := if g.phase == 0 then None else Some(s.activations[(g.requirement, g.phase)].activatedAt);
    ReceiptTimes(w, s, g, DeclaredFor(w.commits, g), notBefore);
    assert HasReceipt(s, g.requirement, g.receipts[0]);
  }

  lemma ReceiptTimes(w: World, s: Store, g: Gate, d: Definition, notBefore: Option<int>)
    requires ReceiptBindings(w, s, g, d, notBefore)
    ensures forall i | 0 <= i < |g.receipts| ::
              HasReceipt(s, g.requirement, g.receipts[i])
              && var r := s.receipts[(g.requirement, g.receipts[i])];
                 r.startedAt <= r.completedAt <= g.attestation.reviewedAt && (notBefore.Some? ==> notBefore.value <= r.startedAt)
  {
    hide SuiteIds, IssuedBySuite;
    forall i | 0 <= i < |g.receipts|
      ensures HasReceipt(s, g.requirement, g.receipts[i])
      ensures ReceiptBinds(w, g, d, notBefore, s.receipts[(g.requirement, g.receipts[i])], g.receiptFingerprints[i])
    {
      assert Cited(s, g)[i] == s.receipts[(g.requirement, g.receipts[i])];
    }
  }

  /** Issue times never go back along a validated chain, and every activation
      falls between the two gates it joins. */
  lemma {:induction false} CausalTimeline(w: World, s: Store, g: Gate, i: int, j: int)
    requires ChainValid(w, s, g) && 0 <= i <= j <= g.phase
    ensures Complete(s, g) && GateAt(s, g, i).issuedAt <= GateAt(s, g, j).issuedAt
    ensures i < j ==> (g.requirement, j) in s.activations
                      && GateAt(s, g, i).issuedAt <= s.activations[(g.requirement, j)].activatedAt <= GateAt(s, g, j).issuedAt
    decreases j
  {
    hide Link, ChainValid;
    ChainIsFlat(w, s, g);
    if i < j {
      CausalTimeline(w, s, g, i, j - 1);
      assert Link(w, s, GateAt(s, g, j));
      LinkTimes(w, s, GateAt(s, g, j));
      assert GateAt(s, g, j - 1) == Previous(s, GateAt(s, g, j));
    }
  }

  // ----- ancestry and frozen definitions -----

  /** Earlier gates of a validated chain were issued on ancestors of the commits
      of later ones. */
  lemma {:induction false} AncestryOfChain(w: World, s: Store, g: Gate, i: int, j: int)
    requires ChainValid(w, s, g) && 0 <= i < j <= g.phase
    ensures Complete(s, g) && IsAncestor(w.commits, GateAt(s, g, i).commit, GateAt(s, g, j).commit)
    decreases j
  {
    hide ChainValid, IsAncestor, Link, HasPrevious;
    LinkInChain(w, s, g, j);
    if i < j - 1 {
      AncestryOfChain(w, s, g, i, j - 1);
      AncestorTransitive(w.commits, GateAt(s, g, i).commit, GateAt(s, g, j - 1).commit, GateAt(s, g, j).commit);
    }
  }

  lemma LinkInChain(w: World, s: Store, g: Gate, j: int)
    requires ChainValid(w, s, g) && 0 < j <= g.phase
    ensures Complete(s, g) && Link(w, s, GateAt(s, g, j)) && IsAncestor(w.commits, GateAt(s, g, j - 1).commit, GateAt(s, g, j).commit)
  {
    hide ChainValid, IsAncestor, Link;
    ChainIsFlat(w, s, g);
    assert Link(w, s, GateAt(s, g, j));
    LinkDescends(w, s, GateAt(s, g, j));
    assert GateAt(s, g, j - 1) == Previous(s, GateAt(s, g, j));
  }

  lemma LinkDescends(w: World, s: Store, g: Gate)
    requires Link(w, s, g) && g.phase > 0
    ensures HasPrevious(s, g) && IsAncestor(w.commits, Previous(s, g).commit, g.commit)
  {
    hide Standing, ReceiptsBind, ForTask, ActivationStands, IsAncestor, Linked;
  }

  /** Below the last gate, every gate's commit is contained in HEAD: some
      activation above it says so of a later gate, or of itself. */
  lemma PastIsInHead(w: World, s: Store, g: Gate, i: int)
    requires ChainValid(w, s, g) && 0 <= i < g.phase
    ensures Complete(s, g)
    ensures GateAt(s, g, i).commit == w.head || IsAncestor(w.commits, GateAt(s, g, i).commit, w.head)
  {
    hide ChainValid, IsAncestor, Standing, ReceiptsBind, Succeeds, ForTask, ActivationFacts;
    ChainIsFlat(w, s, g);
    var above := GateAt(s, g, i + 1);
    assert Link(w, s, above) && GateAt(s, g, i) == Previous(s, above);
    PredecessorOf(w, s, above);
  }

  lemma PredecessorOf(w: World, s: Store, g: Gate)
    requires Link(w, s, g) && g.phase > 0
    ensures ActivationBinds(w, s.activations[(g.requirement, g.phase)], Previous(s, g))
  {
    hide ActivationBinds, Standing, ReceiptsBind, Succeeds, ForTask;
  }

  /** Every definition of the chain, unknown fields included, and the text of
      its plan are the same at the commit the gate was issued on and at HEAD. */
  lemma DefinitionsAreFrozen(w: World, s: Store, g: Gate, i: int)
    requires ChainValid(w, s, g) && 0 <= i <= g.phase
    ensures Complete(s, g)
    ensures var past := GateAt(s, g, i);
            var path := (g.requirement, i);
            && Loadable(w.commits, past.commit, path) && Loadable(w.commits, w.head, path)
            && w.commits[past.commit].definitions[path] == w.commits[w.head].definitions[path]
            && var plan := w.commits[w.head].definitions[path].definition.planPath;
               w.commits[past.commit].files[plan] == w.commits[w.head].files[plan]
  {
    hide ChainValid, ReceiptsBind, Succeeds, ForTask, ActivationStands, PassFacts;
    ChainIsFlat(w, s, g);
    var past := GateAt(s, g, i);
    assert Link(w, s, past);
    DefinitionsFacts(w.commits, past.commit, past.requirement);
  }

  lemma CurrentFollows(w: World, s: Store, g: Gate)
    requires GateValid(w, s, g) && g.phase > 0
    ensures HasPrevious(s, g) && ChainValid(w, s, Previous(s, g))
    ensures IsAncestor(w.commits, Previous(s, g).commit, g.commit) && g.commit == w.head
  {
    hide ChainValid, IsAncestor, PassFacts, Declared, ReceiptsBind, PhaseActivated, DeclaredFor;
  }

  /** A gate accepted as current: its whole history is ordered, contained in
      HEAD and unchanged since. */
  lemma CurrentGateHistory(w: World, s: Store, g: Gate, i: int)
    requires GateValid(w, s, g) && 0 <= i < g.phase
    ensures HasPrevious(s, g) && Complete(s, Previous(s, g))
    ensures IsAncestor(w.commits, GateAt(s, Previous(s, g), i).commit, w.head)
    ensures GateAt(s, Previous(s, g), i).issuedAt <= g.issuedAt
    ensures var past := GateAt(s, Previous(s, g), i);
            Loadable(w.commits, past.commit, (g.requirement, i)) && Loadable(w.commits, w.head, (g.requirement, i))
            && w.commits[past.commit].definitions[(g.requirement, i)] == w.commits[w.head].definitions[(g.requirement, i)]
  {
    CurrentFollows(w, s, g);
    CurrentTimes(w, s, g);
    hide ChainValid, IsAncestor, GateValid, Loadable, Link;
    var p := Previous(s, g);
    CausalTimeline(w, s, p, i, p.phase);
    DefinitionsAreFrozen(w, s, p, i);
    if i < p.phase {
      AncestryOfChain(w, s, p, i, p.phase);
      AncestorTransitive(w.commits, GateAt(s, p, i).commit, p.commit, g.commit);
    }
  }

  lemma CurrentTimes(w: World, s: Store, g: Gate)
    requires GateValid(w, s, g) && g.phase > 0
    ensures HasPrevious(s, g) && Previous(s, g).issuedAt <= g.issuedAt
  {
    hide ChainValid, IsAncestor, Frozen, Definitions, Answers, PassFacts, NoPendingReopen, Declared, DeclaredFor, Succeeds,
      ReceiptBindings, Load, ActivationFacts;
    var a := s.activations[(g.requirement, g.phase)];
    FirstReceiptTimes(w, s, g, DeclaredFor(w.commits, g), a.activatedAt);
    assert a.predecessorPhase == g.phase - 1 by { ActivationPhase(w, s, a); }
    assert Previous(s, g) == s.gates[(a.requirement, a.predecessorPhase)];
  }

  lemma ActivationPhase(w: World, s: Store, a: Activation)
    requires ActivationValid(w, s, a)
    ensures a.predecessorPhase == a.phase - 1
  {
    hide ChainValid, ActivationBinds;
  }

  lemma FirstReceiptTimes(w: World, s: Store, g: Gate, d: Definition, activated: int)
    requires PassFacts(w.now, g) && ReceiptBindings(w, s, g, d, Some(activated))
    ensures activated <= g.issuedAt
  {
    hide ResultFacts, ReviewFacts, IssuedBySuite;
    assert HasReceipt(s, g.requirement, g.receipts[0]);
    assert ReceiptBinds(w, g, d, Some(activated), Cited(s, g)[0], g.receiptFingerprints[0]);
  }

  // ----- what a gate stands for -----

  /** A gate fixes its whole past: two workspaces in which the same gate
      validates hold the same gates below it and the same receipts, because each
      record carries the fingerprints of what it builds on. */
  lemma {:induction false} GateFixesItsPast(w: World, s: Store, w': World, s': Store, g: Gate, k: int)
    requires ChainValid(w, s, g) && ChainValid(w', s', g) && 0 <= k <= g.phase
    ensures Complete(s, g) && Complete(s', g) && GateAt(s', g, k) == GateAt(s, g, k)
    ensures var past := GateAt(s, g, k);
            forall i | 0 <= i < |past.receipts| ::
              HasReceipt(s, past.requirement, past.receipts[i]) && HasReceipt(s', past.requirement, past.receipts[i])
              && s'.receipts[(past.requirement, past.receipts[i])] == s.receipts[(past.requirement, past.receipts[i])]
    decreases g.phase - k
  {
    hide Link, ChainValid;
    ChainIsFlat(w, s, g);
    ChainIsFlat(w', s', g);
    if k < g.phase {
      GateFixesItsPast(w, s, w', s', g, k + 1);
      var above := GateAt(s, g, k + 1);
      assert Link(w, s, above) && Link(w', s', above);
      BuildsOn(w, s, above);
      BuildsOn(w', s', above);
      assert GateAt(s, g, k) == Previous(s, above) && GateAt(s', g, k) == Previous(s', above);
    }
    assert Link(w, s, GateAt(s, g, k)) && Link(w', s', GateAt(s', g, k));
    CitesReceipts(w, s, GateAt(s, g, k));
    CitesReceipts(w', s', GateAt(s, g, k));
  }

  lemma BuildsOn(w: World, s: Store, g: Gate)
    requires Link(w, s, g) && g.phase > 0
    ensures HasPrevious(s, g) && g.previousFingerprint.Some? && g.previousFingerprint.value.OfGate?
            && g.previousFingerprint.value.gate == Previous(s, g)
  {
    hide Standing, ReceiptsBind, IsAncestor, ForTask, ActivationStands;
  }

  lemma CitesReceipts(w: World, s: Store, g: Gate)
    requires Link(w, s, g)
    ensures |g.receiptFingerprints| == |g.receipts|
    ensures forall i | 0 <= i < |g.receipts| ::
              HasReceipt(s, g.requirement, g.receipts[i]) && g.receiptFingerprints[i].OfReceipt?
              && g.receiptFingerprints[i].receipt == s.receipts[(g.requirement, g.receipts[i])]
  {
    hide Frozen, Definitions, Answers, ResultFacts, ReviewFacts, NoPendingReopen, Succeeds, ReceiptFacts, IssuedBySuite;
    var notBefore := if g.phase == 0 then None else Some(s.activations[(g.requirement, g.phase)].activatedAt);
    var d := DeclaredFor(w.commits, g);
    assert ReceiptBindings(w, s, g, d, notBefore);
    forall i | 0 <= i < |g.receipts|
      ensures HasReceipt(s, g.requirement, g.receipts[i])
      ensures ReceiptBinds(w, g, d, notBefore, s.receipts[(g.requirement, g.receipts[i])], g.receiptFingerprints[i])
    {
      assert Cited(s, g)[i] == s.receipts[(g.requirement, g.receipts[i])];
    }
  }

  /** A passing run of a suite, on the gate's own commit, by a session that is
      not the reviewing one. */
  predicate Passed(s: Store, g: Gate, suite: string, i: nat)
    requires i < |g.receipts|
  {
    && HasReceipt(s, g.requirement, g.receipts[i])
    && var r := s.receipts[(g.requirement, g.receipts[i])];
    && r.suite == suite && r.commit == g.commit && r.status == "PASS" && r.exitCode == 0
    && r.session != g.attestation.reviewer
  }

  /** In a validated chain every suite that the definition of a phase declares
      has passed on that phase's commit, every acceptance item it declares has a
      passing result, and the reviewing session took no part. */
  lemma EvidenceOfGate(w: World, s: Store, g: Gate, k: int)
    requires ChainValid(w, s, g) && 0 <= k <= g.phase
    ensures Complete(s, g) && Declared(w.commits, GateAt(s, g, k))
    ensures var past := GateAt(s, g, k);
            var d := DeclaredFor(w.commits, past);
            && (forall id | id in SuiteIds(d) :: exists i | 0 <= i < |past.receipts| :: Passed(s, past, id, i))
            && (forall id | id in AcceptanceIds(d) :: exists r | r in past.results :: r.id == id && r.status == "PASS")
            && past.attestation.reviewer !in past.attestation.sessions
  {
    hide Link, ChainValid, Declared, DeclaredFor;
    ChainIsFlat(w, s, g);
    var past := GateAt(s, g, k);
    assert Link(w, s, past);
    LinkDeclares(w, s, past);
    SuitesPassed(w, s, past);
    AcceptanceMet(w, s, past);
  }

  lemma LinkDeclares(w: World, s: Store, g: Gate)
    requires Link(w, s, g)
    ensures Declared(w.commits, g)
  {
    hide Frozen, Declared, ReceiptsBind, NoPendingReopen, PassFacts, Succeeds, ForTask, ActivationStands;
  }

  lemma SuitesPassed(w: World, s: Store, g: Gate)
    requires Link(w, s, g) && Declared(w.commits, g)
    ensures forall id | id in SuiteIds(DeclaredFor(w.commits, g)) :: exists i | 0 <= i < |g.receipts| :: Passed(s, g, id, i)
  {
    hide Frozen, Definitions, Answers, ResultFacts, ReviewFacts, NoPendingReopen, Succeeds, IssuedBySuite, SuiteIds, DeclaredFor, ActivationStands;
    var notBefore := if g.phase == 0 then None else Some(s.activations[(g.requirement, g.phase)].activatedAt);
    var d := DeclaredFor(w.commits, g);
    assert ReceiptBindings(w, s, g, d, notBefore);
    var rs := Cited(s, g);
    forall id | id in SuiteIds(d) ensures exists i | 0 <= i < |g.receipts| :: Passed(s, g, id, i) {
      SuiteCovered(w, s, g, d, notBefore, id);
      var i :| 0 <= i < |rs| && rs[i].suite == id;
      assert ReceiptBinds(w, g, d, notBefore, rs[i], g.receiptFingerprints[i]) && HasReceipt(s, g.requirement, g.receipts[i]);
      assert Passed(s, g, id, i);
    }
  }

  lemma SuiteCovered(w: World, s: Store, g: Gate, d: Definition, notBefore: Option<int>, id: string)
    requires ReceiptBindings(w, s, g, d, notBefore) && id in SuiteIds(d)
    ensures exists i | 0 <= i < |Cited(s, g)| :: Cited(s, g)[i].suite == id
  {
    hide ReceiptBinds, HasReceipt, SuiteIds, Cited;
    var declared := set x | x in SuiteIds(d);
    var ran := set r | r in Cited(s, g) :: r.suite;
    assert id in declared && declared == ran;
    var r :| r in Cited(s, g) && r.suite == id;
  }

  lemma ItemAnswered(g: Gate, d: Definition, id: string)
    requires Answers(g, d) && id in AcceptanceIds(d)
    ensures exists i | 0 <= i < |g.results| :: ResultIds(g)[i] == id
  {
    hide AcceptanceIds;
    var declared := set x | x in AcceptanceIds(d);
    var met := set x | x in ResultIds(g);
    assert id in declared && declared == met;
    assert id in ResultIds(g) && |ResultIds(g)| == |g.results|;
  }

  lemma AcceptanceMet(w: World, s: Store, g: Gate)
    requires Link(w, s, g) && Declared(w.commits, g)
    ensures forall id | id in AcceptanceIds(DeclaredFor(w.commits, g)) :: exists r | r in g.results :: r.id == id && r.status == "PASS"
    ensures g.attestation.reviewer !in g.attestation.sessions
  {
    hide Frozen, Definitions, ReceiptsBind, NoPendingReopen, Succeeds, ForTask, ActivationStands, AcceptanceIds;
    var d := DeclaredFor(w.commits, g);
    forall id | id in AcceptanceIds(d) ensures exists r | r in g.results :: r.id == id && r.status == "PASS" {
      ItemAnswered(g, d, id);
      var i :| 0 <= i < |g.results| && ResultIds(g)[i] == id;
      assert g.results[i] in g.results && g.results[i].id == id;
    }
  }
}
