/** What the checks on gates depend on: a chain is judged by what is filed at
    its own phases and by their committed definitions; neither time nor commits
    on top of HEAD turn it down. */
module GateFrames {
  import opened Utf8
  import opened Strings
  import opened GateRecords
  import opened GateChain
  import GateTheorems
  import opened GateOps
  import opened GateRuns

  // ----- a later world -----

  /** A definition file and the plan it names are the same at both heads. */
  predicate KeepsDefinition(w: World, w': World, path: Path) {
    w.head in w.commits && path in w.commits[w.head].definitions ==>
      && w'.head in w'.commits && path in w'.commits[w'.head].definitions
      && var file := w.commits[w.head].definitions[path];
      && w'.commits[w'.head].definitions[path] == file
      && (file.definition.planPath in w.commits[w.head].files ==>
            && file.definition.planPath in w'.commits[w'.head].files
            && w'.commits[w'.head].files[file.definition.planPath] == w.commits[w.head].files[file.definition.planPath])
  }

  /** What the authority confirmed, it still confirms. */
  ghost predicate Upholds(w: World, w': World) {
    forall r, suite, phase, commit :: w.authority(r, suite, phase, commit) ==> w'.authority(r, suite, phase, commit)
  }

  /** The outside world, later: HEAD may have moved on to a descendant that
      keeps the definitions and plans of the phases below n. */
  ghost predicate LaterWorld(w: World, w': World, requirement: string, n: int) {
    && w.now <= w'.now && CommitsGrow(w.commits, w'.commits) && Upholds(w, w')
    && (IsSha(w.head) ==> IsSha(w'.head)) && (w'.head == w.head || IsAncestor(w'.commits, w.head, w'.head))
    && forall k | 0 <= k < n :: KeepsDefinition(w, w', (requirement, k))
  }

  lemma SameHead(w: World, w': World, requirement: string, n: int)
    requires w.now <= w'.now && CommitsGrow(w.commits, w'.commits) && Upholds(w, w') && w'.head == w.head
    ensures LaterWorld(w, w', requirement, n)
  {
  }

  lemma LoadableGrows(c: Commits, c': Commits, revision: string, path: Path)
    requires CommitsGrow(c, c') && revision in c
    ensures Loadable(c', revision, path) == Loadable(c, revision, path)
  {
  }

  /** What a commit declares never changes. */
  lemma DefinitionsGrow(c: Commits, c': Commits, revision: string, requirement: string)
    requires CommitsGrow(c, c') && revision in c
    ensures Definitions(c', revision, requirement) == Definitions(c, revision, requirement)
  {
    hide Loadable;
    forall k ensures Loadable(c', revision, (requirement, k)) == Loadable(c, revision, (requirement, k)) {
      LoadableGrows(c, c', revision, (requirement, k));
    }
    ChainGrows(c, c', revision, requirement);
    if ChainOfDefinitions(c, revision, requirement) {
      assert Definitions(c', revision, requirement).value == Definitions(c, revision, requirement).value;
    }
  }

  lemma ChainGrows(c: Commits, c': Commits, revision: string, requirement: string)
    requires CommitsGrow(c, c') && revision in c
    requires forall k :: Loadable(c', revision, (requirement, k)) == Loadable(c, revision, (requirement, k))
    ensures ChainOfDefinitions(c', revision, requirement) == ChainOfDefinitions(c, revision, requirement)
  {
    hide Loadable;
    assert Phases(c'[revision], requirement) == Phases(c[revision], requirement);
    forall k | Loadable(c, revision, (requirement, k))
      ensures DefinitionAt(c', revision, requirement, k) == DefinitionAt(c, revision, requirement, k)
    {}
  }

  lemma DeclaredGrows(c: Commits, c': Commits, g: Gate)
    requires CommitsGrow(c, c') && Declared(c, g)
    ensures Declared(c', g) && DeclaredFor(c', g) == DeclaredFor(c, g)
  {
    hide Loadable;
    DefinitionsGrow(c, c', g.commit, g.requirement);
  }

  lemma FrozenStays(w: World, w': World, g: Gate, n: int)
    requires LaterWorld(w, w', g.requirement, n) && 0 <= g.phase < n && Frozen(w.commits, w.head, g)
    ensures Frozen(w'.commits, w'.head, g)
  {
    hide IsAncestor, Upholds;
    assert KeepsDefinition(w, w', (g.requirement, g.phase));
  }

  lemma HeadFollows(w: World, w': World, requirement: string, n: int, commit: string)
    requires LaterWorld(w, w', requirement, n)
    requires w.head == commit || IsAncestor(w.commits, commit, w.head)
    ensures w'.head == commit || IsAncestor(w'.commits, commit, w'.head)
  {
    hide IsAncestor, Upholds, KeepsDefinition;
    if w.head != commit {
      AncestryGrows(w.commits, w'.commits, commit, w.head);
      if w'.head != w.head { AncestorTransitive(w'.commits, commit, w.head, w'.head); }
    }
  }

  /** The definition of a phase that HEAD keeps, in the chain declared there. */
  lemma KeptDefinition(w: World, w': World, path: Path)
    requires Definitions(w.commits, w.head, path.0).Some? && 0 <= path.1 < |Definitions(w.commits, w.head, path.0).value|
    requires Definitions(w'.commits, w'.head, path.0).Some? && KeepsDefinition(w, w', path)
    ensures var ds, ds' := Definitions(w.commits, w.head, path.0).value, Definitions(w'.commits, w'.head, path.0).value;
            path.1 < |ds'| && ds'[path.1] == ds[path.1]
  {
    hide Loadable;
    assert w.head in w.commits && path in w.commits[w.head].definitions by { LoadedFile(w.commits, w.head, path); }
    assert path.1 in Phases(w'.commits[w'.head], path.0);
  }

  lemma LoadedFile(c: Commits, revision: string, path: Path)
    requires Definitions(c, revision, path.0).Some? && 0 <= path.1 < |Definitions(c, revision, path.0).value|
    ensures revision in c && path in c[revision].definitions && Definitions(c, revision, path.0).value[path.1] == c[revision].definitions[path].definition
    ensures !Blank(c[revision].definitions[path].definition.task)
  {
    assert Loadable(c, revision, (path.0, path.1));
  }

  // ----- a later store -----

  predicate SameAt(s: Store, s': Store, path: Path) {
    && At(s'.gates, path) == At(s.gates, path) && At(s'.reopens, path) == At(s.reopens, path)
    && At(s'.activations, path) == At(s.activations, path)
  }

  /** The two stores agree on everything a chain below phase n is judged by. */
  predicate SameBelow(s: Store, s': Store, requirement: string, n: int) {
    && s'.receipts == s.receipts
    && forall k | 0 <= k < n :: SameAt(s, s', (requirement, k))
  }

  lemma ReceiptsStay(w: World, w': World, s: Store, s': Store, g: Gate, d: Definition, notBefore: Option<int>)
    requires Upholds(w, w') && s'.receipts == s.receipts
    requires ReceiptBindings(w, s, g, d, notBefore)
    ensures ReceiptBindings(w', s', g, d, notBefore)
  {
    hide ReceiptFacts, SuiteIds, IssuedBySuite;
    forall i | 0 <= i < |g.receipts| ensures HasReceipt(s', g.requirement, g.receipts[i]) {
      assert HasReceipt(s, g.requirement, g.receipts[i]);
    }
    assert Cited(s', g) == Cited(s, g);
    forall i | 0 <= i < |g.receipts|
      ensures ReceiptBinds(w', g, d, notBefore, Cited(s', g)[i], g.receiptFingerprints[i])
    {
      assert ReceiptBinds(w, g, d, notBefore, Cited(s, g)[i], g.receiptFingerprints[i]);
    }
  }

  lemma DeclaredReceiptsStay(w: World, w': World, s: Store, s': Store, g: Gate, notBefore: Option<int>)
    requires Upholds(w, w') && CommitsGrow(w.commits, w'.commits) && s'.receipts == s.receipts && ReceiptsBind(w, s, g, notBefore)
    ensures ReceiptsBind(w', s', g, notBefore)
  {
    hide Declared, DeclaredFor, ReceiptBindings, Upholds;
    DeclaredGrows(w.commits, w'.commits, g);
    ReceiptsStay(w, w', s, s', g, DeclaredFor(w.commits, g), notBefore);
  }

  lemma BindsStays(w: World, w': World, a: Activation, g: Gate, n: int)
    requires LaterWorld(w, w', a.requirement, n) && ActivationBinds(w, a, g)
    ensures ActivationBinds(w', a, g)
  {
    hide Loadable, IsAncestor, Upholds, KeepsDefinition;
    InCommits(w.commits, g.commit, (a.requirement, a.predecessorPhase));
    LoadableGrows(w.commits, w'.commits, g.commit, (a.requirement, a.predecessorPhase));
    HeadFollows(w, w', a.requirement, n, g.commit);
  }

  lemma InCommits(c: Commits, revision: string, path: Path)
    requires Load(c, revision, path).Some?
    ensures revision in c
  {
  }

  lemma ActivationStays(w: World, w': World, s: Store, s': Store, a: Activation, n: int)
    requires LaterWorld(w, w', a.requirement, n) && SameBelow(s, s', a.requirement, n) && a.phase <= n
    requires GateTheorems.ActivationStands(w, s, a)
    ensures GateTheorems.ActivationStands(w', s', a)
  {
    hide ActivationBinds, IsAncestor, KeepsDefinition, Upholds;
    assert SameAt(s, s', (a.requirement, a.predecessorPhase));
    BindsStays(w, w', a, s.gates[(a.requirement, a.predecessorPhase)], n);
  }

  lemma StandingStays(w: World, w': World, s: Store, s': Store, g: Gate, n: int)
    requires LaterWorld(w, w', g.requirement, n) && SameBelow(s, s', g.requirement, n) && 0 <= g.phase < n
    requires Standing(w, s, g)
    ensures Standing(w', s', g)
  {
    hide Declared, Frozen, IsAncestor, ReadReopen, ResultFacts, ReviewFacts, KeepsDefinition, Upholds;
    assert SameAt(s, s', (g.requirement, g.phase));
    ReadsOnly(s, s', (g.requirement, g.phase));
    FrozenStays(w, w', g, n);
    DeclaredGrows(w.commits, w'.commits, g);
  }

  lemma SucceedsStays(c: Commits, c': Commits, g: Gate, previous: Gate)
    requires CommitsGrow(c, c') && Succeeds(c, g, previous)
    ensures Succeeds(c', g, previous)
  {
    hide IsAncestor;
    AncestryGrows(c, c', previous.commit, g.commit);
  }

  lemma ForTaskStays(c: Commits, c': Commits, g: Gate, a: Activation)
    requires CommitsGrow(c, c') && ForTask(c, g, a)
    ensures ForTask(c', g, a)
  {
    hide Declared, DeclaredFor;
    DeclaredGrows(c, c', g);
  }

  /** The checks of one gate of a chain read nothing above it, and time only
      moves in their favour. */
  lemma LinkStays(w: World, w': World, s: Store, s': Store, g: Gate, n: int)
    requires LaterWorld(w, w', g.requirement, n) && SameBelow(s, s', g.requirement, n) && g.phase < n
    requires GateTheorems.Link(w, s, g)
    ensures GateTheorems.Link(w', s', g)
  {
    hide Standing, ReceiptsBind, Succeeds, ForTask, IsAncestor, KeepsDefinition, Upholds, CommitsGrow, NoLinks;
    hide GateTheorems.ActivationStands;
    assert SameAt(s, s', (g.requirement, g.phase));
    StandingStays(w, w', s, s', g, n);
    if g.phase == 0 {
      DeclaredReceiptsStay(w, w', s, s', g, None);
    } else {
      var a := s.activations[(g.requirement, g.phase)];
      assert SameAt(s, s', (g.requirement, g.phase - 1)) && SameAt(s, s', (g.requirement, g.phase));
      ActivationStays(w, w', s, s', a, n);
      DeclaredReceiptsStay(w, w', s, s', g, Some(a.activatedAt));
      SucceedsStays(w.commits, w'.commits, g, Previous(s, g));
      ForTaskStays(w.commits, w'.commits, g, a);
    }
  }

  /** A chain of gates stays valid while HEAD moves on, as long as its own
      phases keep their files, definitions and plans. */
  lemma ChainStays(w: World, w': World, s: Store, s': Store, g: Gate, n: int)
    requires LaterWorld(w, w', g.requirement, n) && SameBelow(s, s', g.requirement, n) && g.phase < n
    requires ChainValid(w, s, g)
    ensures ChainValid(w', s', g)
  {
    hide GateTheorems.Link, ChainValid, LaterWorld;
    GateTheorems.ChainIsFlat(w, s, g);
    GateTheorems.ChainIsFlat(w', s', g);
    forall k | 0 <= k < g.phase
      ensures (g.requirement, k) in s'.gates && s'.gates[(g.requirement, k)] == s.gates[(g.requirement, k)]
    {
      assert SameAt(s, s', (g.requirement, k));
    }
    forall k | 0 <= k <= g.phase ensures GateTheorems.Link(w', s', GateTheorems.GateAt(s', g, k)) {
      assert GateTheorems.Link(w, s, GateTheorems.GateAt(s, g, k));
      LinkStays(w, w', s, s', GateTheorems.GateAt(s, g, k), n);
    }
  }

  /** An activation stays valid while HEAD moves on, as long as the phases below
      its own keep their files, definitions and plans. */
  lemma StaysValid(w: World, w': World, s: Store, s': Store, a: Activation)
    requires LaterWorld(w, w', a.requirement, a.phase) && SameBelow(s, s', a.requirement, a.phase) && WellFiled(s)
    requires ActivationValid(w, s, a)
    ensures ActivationValid(w', s', a)
  {
    hide ChainValid, ActivationFacts, ActivationBinds, LaterWorld, GateTheorems.ActivationStands;
    var predecessor := s.gates[(a.requirement, a.predecessorPhase)];
    ActivationParts(w, s, a);
    ActivationStays(w, w', s, s', a, a.phase);
    assert SameAt(s, s', (a.requirement, a.predecessorPhase));
    ChainStays(w, w', s, s', predecessor, a.phase);
    ActivationParts(w', s', a);
  }

  lemma PhaseStaysActivated(w: World, w': World, s: Store, s': Store, path: Path, d: Definition, d': Definition)
    requires LaterWorld(w, w', path.0, path.1) && SameBelow(s, s', path.0, path.1) && WellFiled(s) && s'.meta == s.meta
    requires At(s'.activations, path) == At(s.activations, path) && d'.task == d.task
    requires PhaseActivated(w, s, path, d, true)
    ensures PhaseActivated(w', s', path, d', true)
  {
    hide ActivationValid, SameBelow, LaterWorld;
    StaysValid(w, w', s, s', s.activations[path]);
  }

  lemma ActivationParts(w: World, s: Store, a: Activation)
    ensures ActivationValid(w, s, a) <==>
              GateTheorems.ActivationStands(w, s, a) && ChainValid(w, s, s.gates[(a.requirement, a.predecessorPhase)])
    ensures ActivationValid(w, s, a) ==> a.phase >= 1 && a.predecessorPhase == a.phase - 1
  {
    hide ChainValid, ActivationBinds;
  }
}
