/** The records a phase gate is made of, the commits it is bound to, and the
    files they are kept in. A SHA-256 fingerprint is modelled as the content it
    was taken of: equal fingerprints mean equal content. */
module GateRecords {
  import opened Utf8
  import opened Strings

  datatype Digest =
    | OfGate(gate: Gate)
    | OfReceipt(receipt: Receipt)
    | OfPlan(source: string)
    | OfAcceptance(items: seq<Acceptance>)
    | OfSuite(suite: Suite)
    | OfArchive(archive: Archive)
    | Malformed(text: string)

  datatype Acceptance = Acceptance(id: string, description: string)

  datatype Suite = Suite(id: string, kind: string, attested: Option<string>, command: string)

  datatype Definition = Definition(
    requirement: string, phase: int, task: string, planPath: string, planFingerprint: Digest,
    acceptance: seq<Acceptance>, suites: seq<Suite>, next: Option<string>, schema: int)

  /** A committed definition file: the fields read, and everything else. */
  datatype DefinitionFile = DefinitionFile(definition: Definition, extra: string)

  datatype Receipt = Receipt(
    id: string, requirement: string, commit: string, suite: string, suiteFingerprint: Digest,
    issuer: string, run: string, session: string, command: string, environment: string,
    startedAt: int, completedAt: int, exitCode: int, status: string, summary: string,
    url: Option<string>, schema: int, extra: string)

  datatype Result = Result(id: string, status: string, summary: string, evidence: seq<string>, schema: int)

  datatype Attestation = Attestation(
    reviewer: string, sessions: seq<string>, runs: seq<string>, verdict: string,
    findings: seq<string>, reviewedAt: int, schema: int)

  datatype Gate = Gate(
    requirement: string, phase: int, task: string, commit: string, planFingerprint: Digest,
    acceptanceFingerprint: Digest, results: seq<Result>, receipts: seq<string>,
    receiptFingerprints: seq<Digest>, summary: string, attestation: Attestation, issuedAt: int,
    issuedBy: string, status: string, previousPhase: Option<int>, previousCommit: Option<string>,
    previousFingerprint: Option<Digest>, schema: int, extra: string)

  datatype Activation = Activation(
    requirement: string, phase: int, task: string, predecessorPhase: int, predecessorCommit: string,
    predecessorFingerprint: Digest, session: string, activatedAt: int, activatedBy: string, schema: int)

  datatype Review = Review(
    requirement: string, phase: int, commit: string, receipts: seq<string>,
    receiptFingerprints: seq<Digest>, attestation: Attestation, schema: int)

  datatype Archive = Archive(
    schema: int, requirement: string, phase: int, task: string, reason: string, reopenedBy: string,
    reopenedAt: int, review: Option<Review>, gate: Option<Gate>)

  datatype Journal = Journal(schema: int, pending: bool, fingerprint: Digest, archive: Archive)

  /** A requirement and one of its phases: the path of a record. */
  type Path = (string, int)

  datatype Flag = Absent | Set(on: bool) | NotBoolean

  datatype Meta = Meta(task: Option<string>, status: string, gated: Flag)

  /** The files of a workspace, by path. Archives are named by phase and
      fingerprint. */
  datatype Store = Store(
    gates: map<Path, Gate>, activations: map<Path, Activation>, reviews: map<Path, Review>,
    receipts: map<(string, string), Receipt>, reopens: map<Path, Journal>,
    history: map<(Path, Digest), Archive>, meta: map<string, Meta>)

  /** What a commit holds: its parents, its definition files, its other files. */
  datatype Commit = Commit(parents: seq<string>, definitions: map<Path, DefinitionFile>, files: map<string, string>)

  type Commits = map<string, Commit>

  /** Everything read from outside the workspace files: the commits, HEAD, the
      clock, whether this checkout is the requirement's own, and the external
      authority asked about receipts from phase 4 on. */
  datatype World = World(
    commits: Commits, head: string, clean: bool, now: int, inPlace: bool,
    authority: (Receipt, Suite, int, string) -> bool)

  const SCHEMA: int := 1
  const CLOCK_SKEW: int := 300

  // ----- formats -----

  predicate IsFingerprint(d: Digest) {
    !d.Malformed?
  }

  // ----- ancestry -----

  /** Some commits and their parents. */
  function WithParents(c: Commits, seen: set<string>): (next: set<string>)
    requires seen <= c.Keys
    ensures seen <= next <= c.Keys
  {
    seen + set x, p | x in seen && p in c[x].parents && p in c :: p
  }

  /** Some commits and everything they come from. */
  function Closure(c: Commits, seen: set<string>): (all: set<string>)
    requires seen <= c.Keys
    ensures seen <= all <= c.Keys
    decreases c.Keys - seen
  {
    var next := WithParents(c, seen);
    if next == seen then seen
    else
      assert c.Keys - next < c.Keys - seen;
      Closure(c, next)
  }

  /** git merge-base --is-ancestor */
  predicate IsAncestor(c: Commits, ancestor: string, descendant: string) {
    descendant in c && ancestor in Closure(c, {descendant})
  }

  /** A walk from a commit back to one of its ancestors. */
  predicate IsWalk(c: Commits, walk: seq<string>) {
    && walk != []
    && (forall i | 0 <= i < |walk| :: walk[i] in c)
    && (forall i | 0 <= i < |walk| - 1 :: walk[i + 1] in c[walk[i]].parents)
  }

  ghost predicate Reached(c: Commits, ancestor: string, descendant: string) {
    exists walk :: IsWalk(c, walk) && walk[0] == descendant && walk[|walk| - 1] == ancestor
  }

  lemma {:induction false} ClosureIsReached(c: Commits, seen: set<string>, d: string)
    requires seen <= c.Keys && forall x | x in seen :: Reached(c, x, d)
    ensures forall x | x in Closure(c, seen) :: Reached(c, x, d)
    decreases c.Keys - seen
  {
    var next := WithParents(c, seen);
    forall p | p in next ensures Reached(c, p, d) {
      if p !in seen {
        var x :| x in seen && p in c[x].parents;
        var walk :| IsWalk(c, walk) && walk[0] == d && walk[|walk| - 1] == x;
        assert IsWalk(c, walk + [p]) && (walk + [p])[0] == d && (walk + [p])[|walk|] == p;
      }
    }
    if next != seen {
      assert c.Keys - next < c.Keys - seen;
      ClosureIsReached(c, next, d);
    }
  }

  lemma {:induction false} ClosureIsClosed(c: Commits, seen: set<string>)
    requires seen <= c.Keys
    ensures WithParents(c, Closure(c, seen)) == Closure(c, seen)
    decreases c.Keys - seen
  {
    var next := WithParents(c, seen);
    if next != seen {
      assert c.Keys - next < c.Keys - seen;
      ClosureIsClosed(c, next);
    }
  }

  lemma {:induction false} WalkStays(c: Commits, all: set<string>, walk: seq<string>, i: nat)
    requires all <= c.Keys && WithParents(c, all) == all && IsWalk(c, walk) && walk[0] in all && i < |walk|
    ensures walk[i] in all
  {
    if i > 0 {
      WalkStays(c, all, walk, i - 1);
      assert walk[i - 1] in all && walk[i] in c[walk[i - 1]].parents && walk[i] in c;
      assert walk[i] in WithParents(c, all);
    }
  }

  /** One commit is an ancestor of another exactly when a walk through parents
      leads there. */
  lemma AncestryIsWalk(c: Commits, ancestor: string, descendant: string)
    ensures IsAncestor(c, ancestor, descendant) <==> Reached(c, ancestor, descendant)
  {
    if descendant in c {
      assert IsWalk(c, [descendant]);
      ClosureIsReached(c, {descendant}, descendant);
      if Reached(c, ancestor, descendant) {
        var walk :| IsWalk(c, walk) && walk[0] == descendant && walk[|walk| - 1] == ancestor;
        ClosureIsClosed(c, {descendant});
        WalkStays(c, Closure(c, {descendant}), walk, |walk| - 1);
      }
    }
  }

  lemma AncestorTransitive(commits: Commits, a: string, b: string, c: string)
    requires IsAncestor(commits, a, b) && IsAncestor(commits, b, c)
    ensures IsAncestor(commits, a, c)
  {
    hide IsAncestor;
    AncestryIsWalk(commits, a, b);
    AncestryIsWalk(commits, b, c);
    AncestryIsWalk(commits, a, c);
    var p :| IsWalk(commits, p) && p[0] == b && p[|p| - 1] == a;
    var q :| IsWalk(commits, q) && q[0] == c && q[|q| - 1] == b;
    var walk := q + p[1..];
    assert forall i | 0 <= i < |walk| :: walk[i] == if i < |q| then q[i] else p[i - |q| + 1];
    assert IsWalk(commits, walk) && walk[0] == c && walk[|walk| - 1] == a;
  }

  /** Commits are only ever added. */
  predicate CommitsGrow(c: Commits, c': Commits) {
    forall x | x in c :: x in c' && c'[x] == c[x]
  }

  lemma AncestryGrows(c: Commits, c': Commits, a: string, b: string)
    requires CommitsGrow(c, c') && IsAncestor(c, a, b)
    ensures IsAncestor(c', a, b)
  {
    hide IsAncestor;
    AncestryIsWalk(c, a, b);
    AncestryIsWalk(c', a, b);
    var walk :| IsWalk(c, walk) && walk[0] == b && walk[|walk| - 1] == a;
    assert IsWalk(c', walk);
  }

  // ----- definitions -----

  function AcceptanceIds(d: Definition): (ids: seq<string>)
    ensures |ids| == |d.acceptance|
  {
    seq(|d.acceptance|, i requires 0 <= i < |d.acceptance| => d.acceptance[i].id)
  }

  function SuiteIds(d: Definition): (ids: seq<string>)
    ensures |ids| == |d.suites|
  {
    seq(|d.suites|, i requires 0 <= i < |d.suites| => d.suites[i].id)
  }

  /** load_definition's checks on the file at one path of one commit. */
  predicate Loadable(c: Commits, revision: string, path: Path) {
    && path.1 >= 0 && IsRequirement(path.0)
    && revision in c && path in c[revision].definitions
    && var d := c[revision].definitions[path].definition;
    && d.schema == SCHEMA && d.requirement == path.0 && d.phase == path.1
    && !Blank(d.task) && d.acceptance != [] && Unique(AcceptanceIds(d))
    && d.suites != [] && Unique(SuiteIds(d))
    && (d.phase < 4 ==> forall s | s in d.suites :: s.kind != "github-attestation")
    && IsFingerprint(d.planFingerprint)
    && d.planPath in c[revision].files
    && OfPlan(c[revision].files[d.planPath]) == d.planFingerprint
  }

  function Load(c: Commits, revision: string, path: Path): Option<Definition> {
    if Loadable(c, revision, path) then Some(c[revision].definitions[path].definition) else None
  }

  /** The phases a requirement has definition files for. */
  function Phases(commit: Commit, requirement: string): set<int> {
    set p | p in commit.definitions && p.0 == requirement && p.1 >= 0 :: p.1
  }

  /** Phases 0 to n-1, unlinked tasks only at the end, no task twice. */
  predicate ChainOfDefinitions(c: Commits, revision: string, requirement: string) {
    && revision in c
    && var n := |Phases(c[revision], requirement)|;
    && (forall k | k in Phases(c[revision], requirement) :: k < n)
    && (forall k | 0 <= k < n :: Loadable(c, revision, (requirement, k)))
    && (forall j, k | 0 <= j < k < n :: DefinitionAt(c, revision, requirement, j).task != DefinitionAt(c, revision, requirement, k).task)
    && (forall k | 0 <= k < n - 1 :: DefinitionAt(c, revision, requirement, k).next == Some(DefinitionAt(c, revision, requirement, k + 1).task))
    && (n > 0 ==> DefinitionAt(c, revision, requirement, n - 1).next == None)
  }

  function DefinitionAt(c: Commits, revision: string, requirement: string, k: int): Definition
    requires Loadable(c, revision, (requirement, k))
  {
    c[revision].definitions[(requirement, k)].definition
  }

  /** definitions(); None is its PhaseGateError. */
  function Definitions(c: Commits, revision: string, requirement: string): Option<seq<Definition>> {
    if !ChainOfDefinitions(c, revision, requirement) then None
    else
      var n := |Phases(c[revision], requirement)|;
      Some(seq(n, k requires 0 <= k < n => DefinitionAt(c, revision, requirement, k)))
  }

  /** Each entry is the definition of its phase and names the task after it;
      no task appears twice. */
  lemma DefinitionsFacts(c: Commits, revision: string, requirement: string)
    requires Definitions(c, revision, requirement).Some?
    ensures var ds := Definitions(c, revision, requirement).value;
            && (forall k | 0 <= k < |ds| :: Load(c, revision, (requirement, k)) == Some(ds[k]))
            && (forall k | 0 <= k < |ds| :: ds[k].next == if k + 1 < |ds| then Some(ds[k + 1].task) else None)
            && (forall j, k | 0 <= j < k < |ds| :: ds[j].task != ds[k].task)
  {
  }

  lemma NextTask(c: Commits, revision: string, requirement: string, k: int)
    requires Definitions(c, revision, requirement).Some? && 0 <= k < |Definitions(c, revision, requirement).value|
    ensures var ds := Definitions(c, revision, requirement).value;
            ds[k].next == if k + 1 < |ds| then Some(ds[k + 1].task) else None
  {
    hide Loadable;
    DefinitionsFacts(c, revision, requirement);
  }
}
