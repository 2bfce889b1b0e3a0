/** What the gates and activations on file say of a requirement's phases, HEAD
    moving as it likes: every gate's commit declares the phases below as their
    own gates' commits do, so each activation is for a task of its own. */
module PhaseHistory {
  import opened Utf8
  import opened Strings
  import opened GateRecords
  import opened GateChain
  import GateTheorems
  import opened GateOps
  import opened GateFrames
  import opened GateRuns
  import opened GateLineage

  /** What the commit of a gate declares for the gate's requirement. `u` holds
      all commits there ever are. */
  function Declares(u: Commits, g: Gate): Option<seq<Definition>> {
    Definitions(u, g.commit, g.requirement)
  }

  /** The commit of the gate declares its phase, and declares every phase below
      as the commit of that phase's own gate does. */
  predicate Rooted(u: Commits, s: Store, p: Path) {
    && p in s.gates && p.1 >= 0
    && var ds := Declares(u, s.gates[p]);
    && ds.Some? && p.1 < |ds.value|
    && forall i | 0 <= i < p.1 :: SameAsBelow(u, s, p.0, i, ds.value)
  }

  predicate SameAsBelow(u: Commits, s: Store, r: string, i: int, ds: seq<Definition>)
    requires 0 <= i < |ds|
  {
    && (r, i) in s.gates
    && var below := Declares(u, s.gates[(r, i)]);
       below.Some? && i < |below.value| && below.value[i] == ds[i]
  }

  /** The activation is for the task declared after the phase of its gate, at the
      commit of that gate. */
  predicate Authorised(u: Commits, s: Store, p: Path) {
    && p.1 >= 1 && p in s.activations && (p.0, p.1 - 1) in s.gates
    && var ds := Declares(u, s.gates[(p.0, p.1 - 1)]);
       ds.Some? && p.1 < |ds.value| && ds.value[p.1].task == s.activations[p].task
  }

  /** The invariant of every run. */
  ghost predicate Held(u: Commits, s: Store) {
    && Sound(s) && Lineage(s)
    && (forall p | p in s.gates :: Rooted(u, s, p))
    && (forall p | p in s.activations :: Authorised(u, s, p))
  }

  lemma EmptyIsHeld(u: Commits)
    ensures Held(u, EMPTY)
  {
    EmptyIsSound();
  }

  lemma RequirementAt(s: Store, p: Path)
    requires Sound(s) && p in s.gates
    ensures s.gates[p].requirement == p.0 && s.gates[p].phase == p.1
  {
    hide Pinned;
  }

  lemma StandsOnGate(u: Commits, s: Store, p: Path)
    requires Held(u, s) && p in s.activations
    ensures p.1 >= 1 && (p.0, p.1 - 1) in s.gates && PinsGate(s.activations[p], s.gates[(p.0, p.1 - 1)])
  {
    hide WellFiled, PinsGate, Rooted, Lineage, Declares;
    assert Authorised(u, s, p);
  }

  // ----- one task a phase -----

  /** Below a gate every phase has its gate, and from 1 on its activation. */
  lemma Ladder(u: Commits, s: Store, r: string, k: int, i: int)
    requires Held(u, s) && (r, k) in s.gates && 0 <= i <= k
    ensures (r, i) in s.gates && (i >= 1 ==> (r, i) in s.activations)
  {
    hide Sound, Declares, Linked;
    assert Rooted(u, s, (r, k));
    if i < k { assert SameAsBelow(u, s, r, i, Declares(u, s.gates[(r, k)]).value); }
    assert Stands(s, (r, i));
  }

  /** The chain declared at the commit an activation stands on names the task of
      every activation up to it, and defines every finished phase as the commit
      of that phase's gate does. */
  lemma InTop(u: Commits, s: Store, r: string, k: int, i: int)
    requires Held(u, s) && (r, k) in s.activations && 0 <= i <= k
    ensures k >= 1 && (r, k - 1) in s.gates
    ensures var ds := Declares(u, s.gates[(r, k - 1)]);
            && ds.Some? && k < |ds.value| && (i < k ==> SameAsBelow(u, s, r, i, ds.value))
            && (i >= 1 ==> (r, i) in s.activations && s.activations[(r, i)].task == ds.value[i].task)
  {
    hide Sound, Definitions, Lineage;
    assert Authorised(u, s, (r, k));
    assert Rooted(u, s, (r, k - 1));
    if i < k {
      var ds := Declares(u, s.gates[(r, k - 1)]).value;
      Ladder(u, s, r, k - 1, i);
      if i >= 1 {
        assert Authorised(u, s, (r, i));
        if i - 1 < k - 1 { assert SameAsBelow(u, s, r, i - 1, ds); }
        RequirementAt(s, (r, k - 1));
        RequirementAt(s, (r, i - 1));
        NextTask(u, s.gates[(r, k - 1)].commit, r, i - 1);
        NextTask(u, s.gates[(r, i - 1)].commit, r, i - 1);
      }
    }
  }

  lemma TasksOnce(u: Commits, commit: string, r: string)
    requires Definitions(u, commit, r).Some?
    ensures var ds := Definitions(u, commit, r).value;
            forall j, k | 0 <= j < |ds| && 0 <= k < |ds| && j != k :: ds[j].task != ds[k].task
  {
    hide Loadable;
    DefinitionsFacts(u, commit, r);
  }

  /** The task a phase's gate was issued for, as its commit declares it. */
  predicate GateTask(u: Commits, s: Store, r: string, k: int, task: string) {
    && (r, k) in s.gates
    && var ds := Declares(u, s.gates[(r, k)]);
       ds.Some? && 0 <= k < |ds.value| && ds.value[k].task == task
  }

  /** The task of a finished phase is the task of the activation of that phase
      and of no other. */
  lemma GateTaskIsPhase(u: Commits, s: Store, r: string, c: int, j: int, task: string)
    requires Held(u, s) && c >= 0 && (r, c + 1) in s.activations && (r, j) in s.activations && GateTask(u, s, r, c, task)
    ensures s.activations[(r, j)].task == task <==> j == c
  {
    hide Sound, Definitions, Lineage;
    assert Authorised(u, s, (r, j));
    var top := if j < c + 1 then c + 1 else j;
    InTop(u, s, r, top, c);
    InTop(u, s, r, top, j);
    RequirementAt(s, (r, top - 1));
    TasksOnce(u, s.gates[(r, top - 1)].commit, r);
  }

  /** No two activations of a requirement are for the same task. */
  lemma ActivationsApart(u: Commits, s: Store, r: string, i: int, k: int)
    requires Held(u, s) && (r, i) in s.activations && (r, k) in s.activations && i < k
    ensures s.activations[(r, i)].task != s.activations[(r, k)].task
  {
    hide Sound, Definitions, Lineage;
    assert Authorised(u, s, (r, i));
    InTop(u, s, r, k, i);
    InTop(u, s, r, k, k);
    RequirementAt(s, (r, k - 1));
    TasksOnce(u, s.gates[(r, k - 1)].commit, r);
  }

  // ----- the invariant is kept -----

  /** A gate below another, or below an activation, stays. */
  lemma BelowStays(u: Commits, s: Store, s': Store, r: string, k: int, i: int)
    requires Held(u, s) && Grows(s, s') && (r, k) in s.gates && 0 <= i < k
    ensures (r, i) in s.gates && (r, i) in s'.gates && s'.gates[(r, i)] == s.gates[(r, i)]
  {
    hide Sound, Lineage, Rooted, Authorised;
    Ladder(u, s, r, k, i);
    Ladder(u, s, r, k, i + 1);
    var p := (r, i + 1);
    assert p in s.activations && (p.0, p.1 - 1) == (r, i);
  }

  lemma RootedStays(u: Commits, s: Store, s': Store, p: Path)
    requires Held(u, s) && Grows(s, s') && p in s.gates && p in s'.gates && s'.gates[p] == s.gates[p]
    ensures Rooted(u, s', p)
  {
    hide Sound, Lineage, Authorised, Declares, Grows;
    assert Rooted(u, s, p);
    var ds := Declares(u, s.gates[p]).value;
    forall i | 0 <= i < p.1 ensures SameAsBelow(u, s', p.0, i, ds) {
      BelowStays(u, s, s', p.0, p.1, i);
      assert SameAsBelow(u, s, p.0, i, ds);
    }
  }

  lemma AuthorisedStays(u: Commits, s: Store, s': Store, p: Path)
    requires Held(u, s) && Grows(s, s') && p in s.activations
    ensures Authorised(u, s', p)
  {
    hide Sound, Lineage, Rooted, Declares;
    assert Authorised(u, s, p);
  }

  lemma DefinitionIsFile(c: Commits, revision: string, r: string, i: int)
    requires Definitions(c, revision, r).Some? && 0 <= i < |Definitions(c, revision, r).value|
    ensures revision in c && (r, i) in c[revision].definitions
    ensures Definitions(c, revision, r).value[i] == c[revision].definitions[(r, i)].definition
    ensures Load(c, revision, (r, i)) == Some(Definitions(c, revision, r).value[i])
  {
    assert Loadable(c, revision, (r, i));
  }

  /** Every gate of a valid chain has a whole chain declared at its commit, with
      the definition of its phase as HEAD has it. */
  lemma DeclaredInChain(u: Commits, w: World, s: Store, g: Gate, i: int)
    requires ChainValid(w, s, g) && 0 <= i <= g.phase && CommitsGrow(w.commits, u)
    ensures GateTheorems.Complete(s, g)
    ensures var past := GateTheorems.GateAt(s, g, i);
            && past.requirement == g.requirement && past.phase == i && Declares(u, past).Some? && i < |Declares(u, past).value|
            && w.head in w.commits && (g.requirement, i) in w.commits[w.head].definitions
            && Declares(u, past).value[i] == w.commits[w.head].definitions[(g.requirement, i)].definition
  {
    hide ChainValid, ReceiptsBind, Succeeds, ForTask, PassFacts, NoLinks, Definitions, Loadable, GateTheorems.ActivationStands;
    GateTheorems.ChainIsFlat(w, s, g);
    var past := GateTheorems.GateAt(s, g, i);
    assert GateTheorems.Link(w, s, past);
    DefinitionIsFile(w.commits, past.commit, past.requirement, i);
    DefinitionsGrow(w.commits, u, past.commit, past.requirement);
  }

  /** A gate issued on the clean HEAD is rooted: the chain below it was checked
      at its own commit. */
  lemma IssuedIsRooted(u: Commits, w: World, s: Store, g: Gate)
    requires GateValid(w, s, g) && CommitsGrow(w.commits, u)
    ensures Rooted(u, s.(gates := s.gates[(g.requirement, g.phase) := g]), (g.requirement, g.phase))
  {
    hide ChainValid, PassFacts, NoPendingReopen, ReceiptsBind, Succeeds, PhaseActivated, DeclaredFor, Definitions, Answers, NoLinks;
    var p := (g.requirement, g.phase);
    var s' := s.(gates := s.gates[p := g]);
    DeclaredHere(w, g);
    DefinitionsGrow(w.commits, u, g.commit, g.requirement);
    var ds := Declares(u, g).value;
    forall i | 0 <= i < p.1 ensures SameAsBelow(u, s', p.0, i, ds) {
      var previous := Previous(s, g);
      DeclaredInChain(u, w, s, previous, i);
      DefinitionIsFile(w.commits, w.head, g.requirement, i);
      assert GateTheorems.GateAt(s, previous, i) == s'.gates[(p.0, i)];
    }
  }

  lemma DeclaredHere(w: World, g: Gate)
    requires Declared(w.commits, g)
    ensures g.phase >= 0 && Definitions(w.commits, g.commit, g.requirement).Some? && g.commit in w.commits
    ensures g.phase < |Definitions(w.commits, g.commit, g.requirement).value|
  {
    hide Loadable, Answers;
  }

  /** A valid activation is authorised by the gate it stands on. */
  lemma ValidIsAuthorised(u: Commits, w: World, s: Store, a: Activation)
    requires Sound(s) && ActivationValid(w, s, a) && CommitsGrow(w.commits, u)
    ensures Authorised(u, s.(activations := s.activations[(a.requirement, a.phase) := a]), (a.requirement, a.phase))
  {
    hide ActivationValid, ChainValid, Sound, Definitions, Loadable, ActivationFacts, IsAncestor;
    ActivationParts(w, s, a);
    var g := s.gates[(a.requirement, a.predecessorPhase)];
    RequirementAt(s, (a.requirement, a.predecessorPhase));
    DeclaredInChain(u, w, s, g, g.phase);
    assert Declared(w.commits, g) by { ChainDeclares(w, s, g); }
    DeclaredHere(w, g);
    DefinitionsGrow(w.commits, u, g.commit, g.requirement);
    DefinitionIsFile(w.commits, g.commit, g.requirement, g.phase);
    NextTask(w.commits, g.commit, g.requirement, g.phase);
  }

  lemma ChainDeclares(w: World, s: Store, g: Gate)
    requires ChainValid(w, s, g)
    ensures Declared(w.commits, g)
  {
    hide Declared, Frozen, PassFacts, NoPendingReopen, ReceiptsBind, Succeeds, ForTask, NoLinks, ActivationValid;
  }

  /** One write of an operation. */
  lemma WriteKeepsHeld(u: Commits, w: World, s: Store, x: Write)
    requires Held(u, s) && Safe(s, x) && CommitsGrow(w.commits, u)
    requires x.PutGate? ==> GateValid(w, s, x.gate)
    requires x.PutActivation? ==> ActivationValid(w, s, x.activation)
    ensures Held(u, Apply(s, x))
  {
    hide Sound, Lineage, Rooted, Authorised, GateValid, ActivationValid, Safe;
    var s' := Apply(s, x);
    ApplyIsSound(s, x);
    WriteKeepsLineage(w, s, x);
    ApplyGrows(s, x);
    SafePaths(s, x);
    forall p | p in s'.gates ensures Rooted(u, s', p) {
      if x.PutGate? && x.path == p {
        IssuedIsRooted(u, w, s, x.gate);
      } else {
        RootedStays(u, s, s', p);
      }
    }
    forall p | p in s'.activations ensures Authorised(u, s', p) {
      if x.PutActivation? && x.path == p {
        ValidIsAuthorised(u, w, s, x.activation);
      } else {
        AuthorisedStays(u, s, s', p);
      }
    }
  }

  lemma SafePaths(s: Store, x: Write)
    requires Safe(s, x)
    ensures x.PutGate? ==> x.path == (x.gate.requirement, x.gate.phase)
    ensures x.PutActivation? ==> x.path == (x.activation.requirement, x.activation.phase)
  {
    hide ReadReopen, PinsGate;
  }

  // ----- one operation -----

  /** An operation that puts a gate or an activation does nothing else, and puts
      a valid one. */
  ghost predicate PutsValid(w: World, s: Store, ws: seq<Write>) {
    forall x | x in ws ::
      && (x.PutGate? ==> ws == [x] && GateValid(w, s, x.gate))
      && (x.PutActivation? ==> ws == [x] && ActivationValid(w, s, x.activation))
  }

  lemma PlanPutsValid(w: World, s: Store, op: Op, n: nat)
    ensures PutsValid(w, s, Prefix(PlanOf(w, s, op).writes, n))
  {
    hide PlanOf, GateValid, ActivationValid;
    var all := PlanOf(w, s, op).writes;
    var ws := Prefix(all, n);
    forall x | x in ws && (x.PutGate? || x.PutActivation?)
      ensures ws == [x] && (x.PutGate? ==> GateValid(w, s, x.gate)) && (x.PutActivation? ==> ActivationValid(w, s, x.activation))
    {
      assert x in all;
      if op.Reopen? { ReopenPutsNothing(w, s, op, x); } else { WritesAreJustified(w, s, op, x); }
    }
  }

  lemma {:induction false} WritesKeepHeld(u: Commits, w: World, s: Store, ws: seq<Write>)
    requires Held(u, s) && SafeAll(s, ws) && CommitsGrow(w.commits, u) && PutsValid(w, s, ws)
    ensures Held(u, ApplyAll(s, ws))
    decreases |ws|
  {
    hide Held, Safe, GateValid, ActivationValid, CommitsGrow;
    if ws != [] {
      assert ws[0] in ws;
      WriteKeepsHeld(u, w, s, ws[0]);
      forall x | x in ws[1..] ensures !x.PutGate? && !x.PutActivation? { assert x in ws; }
      WritesKeepHeld(u, w, Apply(s, ws[0]), ws[1..]);
    }
  }

  lemma MetaAside(u: Commits, s: Store, meta: map<string, Meta>, receipts: map<(string, string), Receipt>)
    requires Held(u, s)
    ensures Held(u, s.(meta := meta, receipts := receipts))
  {
    hide Rooted, Authorised, Stands, WellFiled, Pinned;
    var s' := s.(meta := meta, receipts := receipts);
    SoundAside(s, s');
    forall p ensures Stands(s', p) { assert Stands(s, p); SameRecords(u, s, s', p); }
    forall p | p in s'.gates ensures Rooted(u, s', p) { SameRecords(u, s, s', p); }
    forall p | p in s'.activations ensures Authorised(u, s', p) { SameRecords(u, s, s', p); }
  }

  lemma SoundAside(s: Store, s': Store)
    requires Sound(s) && s' == s.(meta := s'.meta, receipts := s'.receipts)
    ensures Sound(s')
  {
    hide PinsGate, HasReview, HasActivation;
    forall p | p in s'.reopens ensures ReadReopen(s', p).ReadJournal? { ReadsOnly(s, s', p); }
    forall p | p in s'.reviews ensures HasReview(s', p) { assert HasReview(s, p); SameFiles(s, s', p); }
    forall p | p in s'.activations ensures HasActivation(s', p) { assert HasActivation(s, p); SameFiles(s, s', p); }
  }

  lemma SameFiles(s: Store, s': Store, p: Path)
    requires s' == s.(meta := s'.meta, receipts := s'.receipts)
    ensures (HasReview(s', p) <==> HasReview(s, p)) && (HasActivation(s', p) <==> HasActivation(s, p))
  {
  }

  lemma SameRecords(u: Commits, s: Store, s': Store, p: Path)
    requires s' == s.(meta := s'.meta, receipts := s'.receipts)
    ensures Stands(s', p) <==> Stands(s, p)
    ensures Rooted(u, s', p) <==> Rooted(u, s, p)
    ensures Authorised(u, s', p) <==> Authorised(u, s, p)
  {
    hide Declares, Linked;
    if p in s.gates && p.1 >= 0 && Declares(u, s.gates[p]).Some? && p.1 < |Declares(u, s.gates[p]).value| {
      var ds := Declares(u, s.gates[p]).value;
      assert forall i | 0 <= i < p.1 :: SameAsBelow(u, s', p.0, i, ds) <==> SameAsBelow(u, s, p.0, i, ds);
    }
  }

  /** A gate operation stopped after any of its writes. */
  lemma StepKeepsHeld(u: Commits, s: Store, a: Act)
    requires Held(u, s) && CommitsGrow(a.world.commits, u)
    ensures Held(u, Leaves(s, a))
  {
    hide Sound, PlanOf, SafeAll, Rooted, Authorised, Lineage, PutsValid, CommitsGrow;
    var b := Before(s, a);
    MetaAside(u, s, a.meta, a.receipts);
    PlanIsSafe(a.world, b, a.op);
    SafePrefix(b, PlanOf(a.world, b, a.op).writes, a.steps);
    PlanPutsValid(a.world, b, a.op, a.steps);
    WritesKeepHeld(u, a.world, b, Prefix(PlanOf(a.world, b, a.op).writes, a.steps));
  }
}
