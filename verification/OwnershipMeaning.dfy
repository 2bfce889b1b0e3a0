/** When a plan's cards are claimed, and what the ledger then holds, said of the
    cards, the books and the sessions. */
module OwnershipMeaning {
  import opened Utf8
  import opened Ownership
  import OwnershipLedgers

  // ----- a card and its names -----

  /** The two names a card is claimed under: its id, and its raw id if it has one. */
  predicate IsAlias(t: Task, a: string) {
    a == t.id || (t.raw == Some(a) && a != "")
  }

  /** A note that has not ended: claimed without a result, being dispatched, or to
      be cancelled. */
  predicate Unfinished(e: Entry) {
    e.result == None || e.result == Some(Dispatching) || e.result == Some(CancelRequested)
  }

  /** No unfinished note is filed under, or tells, a name of the card, and no open
      session has one among its tasks. */
  ghost predicate IdleCard(books: Books, sessions: seq<Session>, t: Task) {
    && (forall key, a | key in books && Unfinished(books[key]) && IsAlias(t, a) ::
          a != key && books[key].task != Some(a) && books[key].raw != Some(a))
    && (forall i, a | 0 <= i < |sessions| && sessions[i].active && IsAlias(t, a) :: a !in sessions[i].tasks)
  }

  lemma AliasesAre(t: Task)
    ensures forall a :: a in AliasesOf(t) <==> IsAlias(t, a)
    ensures forall i, j | 0 <= i < j < |AliasesOf(t)| :: Before(AliasesOf(t)[i], AliasesOf(t)[j])
  {
    BeforeTotal(t.id, KeyOf(t));
  }

  /** Names are compared at the first character in which they differ. */
  lemma {:induction false} BeforeIs(a: string, b: string)
    ensures Before(a, b) <==> exists k :: 0 <= k <= |a| && k < |b| && a[..k] == b[..k] && (k < |a| ==> a[k] < b[k])
    decreases |a|
  {
    if a != [] && b != [] && a[0] == b[0] {
      BeforeIs(a[1..], b[1..]);
      if Before(a, b) {
        var k :| 0 <= k <= |a[1..]| && k < |b[1..]| && a[1..][..k] == b[1..][..k] && (k < |a[1..]| ==> a[1..][k] < b[1..][k]);
        assert a[..k + 1] == [a[0]] + a[1..][..k] && b[..k + 1] == [b[0]] + b[1..][..k];
      }
      if k :| 0 <= k <= |a| && k < |b| && a[..k] == b[..k] && (k < |a| ==> a[k] < b[k]) {
        assert k > 0;
        assert a[1..][..k - 1] == a[..k][1..] && b[1..][..k - 1] == b[..k][1..];
        assert k < |a| ==> a[1..][k - 1] < b[1..][k - 1];
      }
    } else if Before(a, b) {
      assert a[..0] == b[..0];
    } else if a != [] && b != [] {
      forall k | 0 < k <= |a| && k < |b| ensures a[..k] != b[..k] { assert a[..k][0] == a[0] && b[..k][0] == b[0]; }
    }
  }

  lemma {:induction false} BeforeTotal(a: string, b: string)
    ensures a == b || Before(a, b) || Before(b, a)
    decreases |a|
  {
    if a != [] && b != [] && a[0] == b[0] {
      BeforeTotal(a[1..], b[1..]);
      assert a == [a[0]] + a[1..] && b == [b[0]] + b[1..];
    }
  }

  lemma IdleIs(books: Books, sessions: seq<Session>, t: Task)
    ensures LegacyIdle(books, sessions, AliasesOf(t)) <==> IdleCard(books, sessions, t)
  {
    hide AliasesOf;
    AliasesAre(t);
    if LegacyIdle(books, sessions, AliasesOf(t)) {
      forall key, a | key in books && Unfinished(books[key]) && IsAlias(t, a)
        ensures a != key && books[key].task != Some(a) && books[key].raw != Some(a)
      {
        assert Busy(books[key]) && a in AliasesOf(t) && !Named(key, books[key], a);
      }
      forall i, a | 0 <= i < |sessions| && sessions[i].active && IsAlias(t, a) ensures a !in sessions[i].tasks {
        assert sessions[i] in sessions && a in AliasesOf(t);
      }
    }
    if IdleCard(books, sessions, t) {
      forall key, a | key in books && Busy(books[key]) && a in AliasesOf(t) ensures !Named(key, books[key], a) {
        assert Unfinished(books[key]) && IsAlias(t, a);
      }
      forall s, a | s in sessions && s.active && a in AliasesOf(t) ensures a !in s.tasks {
        var i :| 0 <= i < |sessions| && sessions[i] == s;
        assert IsAlias(t, a);
      }
    }
  }

  // ----- committing -----

  /** The claims fit into the ledger: no name of theirs is claimed otherwise, there
      or among themselves. */
  ghost predicate Fit(l: Ledger, claims: seq<Claim>) {
    && (forall i, a | 0 <= i < |claims| && a in claims[i].aliases :: a !in l || l[a] == claims[i])
    && (forall i, j, a | 0 <= i < j < |claims| && a in claims[i].aliases && a in claims[j].aliases :: claims[i] == claims[j])
  }

  lemma {:induction false} PutIs(l: Ledger, c: Claim, aliases: seq<string>)
    ensures PutAliases(l, c, aliases).Some? <==> forall a | a in aliases :: a !in l || l[a] == c
    decreases |aliases|
  {
    if aliases != [] {
      var front := aliases[..|aliases| - 1];
      PutIs(l, c, front);
      assert aliases == front + [aliases[|aliases| - 1]];
      if PutAliases(l, c, front).Some? { PutFacts(l, c, front); }
    }
  }

  lemma {:induction false} CommitIs(l: Ledger, claims: seq<Claim>, books: Books, sessions: seq<Session>)
    requires Closed(l)
    ensures Commit(l, claims, books, sessions).Some?
            <==> Fit(l, claims) && forall i | 0 <= i < |claims| :: LegacyIdle(books, sessions, claims[i].aliases)
    decreases |claims|
  {
    hide LegacyIdle, Closed, Fit, Extends, PutAliases;
    if claims == [] {
      NothingFits(l);
    } else {
      var n := |claims| - 1;
      var front, last := claims[..n], claims[n];
      CommitIs(l, front, books, sessions);
      assert forall i | 0 <= i < n :: front[i] == claims[i];
      FitFront(l, claims);
      if Commit(l, front, books, sessions).Some? { LastCommits(l, claims, books, sessions); }
    }
  }

  lemma LastCommits(l: Ledger, claims: seq<Claim>, books: Books, sessions: seq<Session>)
    requires Closed(l) && claims != [] && Commit(l, claims[..|claims| - 1], books, sessions).Some? && Fit(l, claims[..|claims| - 1])
    ensures Commit(l, claims, books, sessions).Some? <==> Fit(l, claims) && LegacyIdle(books, sessions, claims[|claims| - 1].aliases)
  {
    hide LegacyIdle, Closed, Fit, Extends, PutAliases;
    var front, last := claims[..|claims| - 1], claims[|claims| - 1];
    var mid := Commit(l, front, books, sessions).value;
    CommitKeepsClosed(l, front, books, sessions);
    PutIs(mid, last, last.aliases);
    LastFits(l, claims, mid);
  }

  lemma NothingFits(l: Ledger)
    ensures Fit(l, [])
  {
  }

  lemma FitFront(l: Ledger, claims: seq<Claim>)
    requires claims != []
    ensures Fit(l, claims) ==> Fit(l, claims[..|claims| - 1])
  {
  }

  /** The last claim can be put in exactly when it fits as well. */
  lemma LastFits(l: Ledger, claims: seq<Claim>, mid: Ledger)
    requires claims != [] && Fit(l, claims[..|claims| - 1]) && Extends(l, mid)
    requires forall c | c in claims[..|claims| - 1] :: forall a | a in c.aliases :: a in mid && mid[a] == c
    requires forall a | a in mid :: (a in l && mid[a] == l[a]) || exists c | c in claims[..|claims| - 1] :: a in c.aliases && mid[a] == c
    ensures Fit(l, claims) <==> forall a | a in claims[|claims| - 1].aliases :: a !in mid || mid[a] == claims[|claims| - 1]
  {
    var n := |claims| - 1;
    var front, last := claims[..n], claims[n];
    if Fit(l, claims) {
      forall a | a in last.aliases && a in mid ensures mid[a] == last {
        if !(a in l && mid[a] == l[a]) {
          var c :| c in front && a in c.aliases && mid[a] == c;
          var i :| 0 <= i < n && front[i] == c;
          assert claims[i] == c;
        }
      }
    }
    if forall a | a in last.aliases :: a !in mid || mid[a] == last {
      forall i, j, a | 0 <= i < j < |claims| && a in claims[i].aliases && a in claims[j].aliases ensures claims[i] == claims[j] {
        assert claims[i] == front[i] && front[i] in front;
        if j < n { assert claims[j] == front[j]; }
      }
      forall i, a | 0 <= i < |claims| && a in claims[i].aliases ensures a !in l || l[a] == claims[i] {
        if i < n { assert claims[i] == front[i]; }
      }
    }
  }

  // ----- claiming a plan -----

  /** The plan binds different nodes of its own to different cards. */
  ghost predicate WellBound(r: Request, planRequirement: string) {
    && r.requirement == planRequirement
    && (forall i | 0 <= i < |r.bindings| ::
          r.bindings[i].node != "" && r.bindings[i].card != "" && r.bindings[i].node in r.tasks)
    && (forall i, j | 0 <= i < j < |r.bindings| :: r.bindings[i].node != r.bindings[j].node)
    && (forall i, j | 0 <= i < j < |r.bindings| :: r.bindings[i].card != r.bindings[j].card)
  }

  /** The cards of the plan that nobody has claimed. */
  predicate New(l: Ledger, r: Request, b: Binding) {
    b in r.bindings && b.card !in l
  }

  /** The provider knows the card by that name, and nobody works on it. */
  predicate Known(provider: Option<Provider>, b: Binding) {
    && provider.Some? && b.card in provider.value
    && (provider.value[b.card].id == b.card || provider.value[b.card].raw == Some(b.card)) && !provider.value[b.card].bound
  }

  /** Each new card is known, idle, and has no name that is claimed; and no two of
      them share a name. */
  ghost predicate Claimable(l: Ledger, r: Request, provider: Option<Provider>, books: Books, sessions: seq<Session>) {
    && (forall b | New(l, r, b) ::
          && Known(provider, b) && IdleCard(books, sessions, provider.value[b.card])
          && forall a | IsAlias(provider.value[b.card], a) :: a !in l)
    && (forall b, b', a | New(l, r, b) && New(l, r, b') && b != b' ::
          !(IsAlias(provider.value[b.card], a) && IsAlias(provider.value[b'.card], a)))
  }

  /** The plan is accepted: it is well bound, and binds nothing; or the ledger can be
      read, what is claimed of its cards is its own nodes', and the rest can be
      claimed. */
  ghost predicate Accepts(l: Ledger, r: Request, planRequirement: string, provider: Option<Provider>, books: Books, sessions: seq<Session>) {
    && WellBound(r, planRequirement)
    && (r.bindings == []
        || (&& Readable(l)
            && (forall b | b in r.bindings && b.card in l :: l[b.card].requirement == r.requirement && l[b.card].node == b.node)
            && Claimable(l, r, provider, books, sessions)))
  }

  /** The ledger after an accepted plan: every name of every new card leads to the
      one claim of its requirement and node; every other name to what it did. */
  ghost predicate ClaimsOf(l: Ledger, r: Request, provider: Option<Provider>, l': Ledger) {
    && Extends(l, l')
    && (forall b, a | New(l, r, b) && Known(provider, b) && IsAlias(provider.value[b.card], a) ::
          a in l' && (l'[a].requirement, l'[a].node) == (r.requirement, b.node)
          && forall x :: x in l'[a].aliases <==> IsAlias(provider.value[b.card], x))
    && (forall a | a in l' :: a in l || exists b :: New(l, r, b) && Known(provider, b) && IsAlias(provider.value[b.card], a))
  }

  lemma WellBoundIs(r: Request, planRequirement: string)
    ensures ValidRequest(r, planRequirement) <==> WellBound(r, planRequirement)
  {
    if WellBound(r, planRequirement) {
      forall b | b in r.bindings ensures b.node != "" && b.card != "" && b.node in r.tasks {
        var i :| 0 <= i < |r.bindings| && r.bindings[i] == b;
      }
    }
    if ValidRequest(r, planRequirement) {
      forall i | 0 <= i < |r.bindings| ensures r.bindings[i].node != "" && r.bindings[i].card != "" && r.bindings[i].node in r.tasks {
        assert r.bindings[i] in r.bindings;
      }
    }
  }

  /** The missing bindings, in order, so that their nodes differ. */
  lemma {:induction false} MissingDiffer(l: Ledger, bindings: seq<Binding>)
    requires forall i, j | 0 <= i < j < |bindings| :: bindings[i].node != bindings[j].node
    ensures forall i, j | 0 <= i < j < |Missing(l, bindings)| :: Missing(l, bindings)[i].node != Missing(l, bindings)[j].node
    decreases |bindings|
  {
    if bindings != [] {
      var front, last := bindings[..|bindings| - 1], bindings[|bindings| - 1];
      MissingDiffer(l, front);
      var rest := Missing(l, front);
      forall i | 0 <= i < |rest| ensures rest[i].node != last.node {
        assert rest[i] in front;
        var k :| 0 <= k < |front| && front[k] == rest[i];
        assert bindings[k].node != bindings[|bindings| - 1].node;
      }
    }
  }

  lemma {:induction false} PreparedIs(requirement: string, missing: seq<Binding>, provider: Provider)
    ensures Prepared(requirement, missing, provider).Some? <==> forall b | b in missing :: Known(Some(provider), b)
    decreases |missing|
  {
    if missing != [] {
      var front, last := missing[..|missing| - 1], missing[|missing| - 1];
      PreparedIs(requirement, front, provider);
      assert forall b :: b in missing <==> b in front || b == last by { assert missing == front + [last]; }
      assert Known(Some(provider), last) <==> last.card in provider && Identifies(provider[last.card], last.card);
    }
  }

  lemma PreparedAre(l: Ledger, r: Request, provider: Provider, claims: seq<Claim>)
    requires WellBound(r, r.requirement) && Prepared(r.requirement, Missing(l, r.bindings), provider) == Some(claims)
    ensures AreClaims(l, r, provider, claims, Missing(l, r.bindings))
    ensures forall i | 0 <= i < |claims| :: claims[i].aliases == AliasesOf(provider[Missing(l, r.bindings)[i].card])
  {
    hide AliasesOf, IsAlias, Prepared, WellBound;
    var missing := Missing(l, r.bindings);
    NodesDiffer(r);
    MissingDiffer(l, r.bindings);
    forall i | 0 <= i < |missing|
      ensures missing[i].card in provider && claims[i] == Claim(r.requirement, missing[i].node, AliasesOf(provider[missing[i].card]))
      ensures forall a :: a in claims[i].aliases <==> IsAlias(provider[missing[i].card], a)
    {
      PreparedFromFree(r.requirement, missing, provider, i);
      AliasesAre(provider[missing[i].card]);
    }
  }

  /** The claims of the missing cards fit and are idle exactly when the cards can be
      claimed. */
  lemma ClaimsAre(l: Ledger, r: Request, provider: Provider, books: Books, sessions: seq<Session>, claims: seq<Claim>)
    requires Closed(l) && WellBound(r, r.requirement)
    requires forall b | New(l, r, b) :: Known(Some(provider), b)
    requires Prepared(r.requirement, Missing(l, r.bindings), provider) == Some(claims)
    ensures Fit(l, claims) && (forall i | 0 <= i < |claims| :: LegacyIdle(books, sessions, claims[i].aliases))
            <==> Claimable(l, r, Some(provider), books, sessions)
  {
    hide LegacyIdle, IdleCard, AliasesOf, IsAlias, Prepared, Known, Fit, WellBound;
    var missing := Missing(l, r.bindings);
    PreparedAre(l, r, provider, claims);
    forall i | 0 <= i < |missing|
      ensures LegacyIdle(books, sessions, claims[i].aliases) <==> IdleCard(books, sessions, provider[missing[i].card])
    {
      IdleIs(books, sessions, provider[missing[i].card]);
    }
    if Fit(l, claims) && forall i | 0 <= i < |claims| :: LegacyIdle(books, sessions, claims[i].aliases) {
      FitMeansFree(l, r, provider, claims, missing);
      forall b | New(l, r, b) ensures IdleCard(books, sessions, provider[b.card]) {
        assert b in missing;
        var i :| 0 <= i < |missing| && missing[i] == b;
        assert LegacyIdle(books, sessions, claims[i].aliases);
      }
    }
    if Claimable(l, r, Some(provider), books, sessions) {
      FreeMeansFit(l, r, provider, books, sessions, claims, missing);
      forall i | 0 <= i < |claims| ensures LegacyIdle(books, sessions, claims[i].aliases) { assert New(l, r, missing[i]) by { assert missing[i] in missing; } }
    }
  }

  lemma NodesDiffer(r: Request)
    requires WellBound(r, r.requirement)
    ensures forall i, j | 0 <= i < j < |r.bindings| :: r.bindings[i].node != r.bindings[j].node
  {
  }

  /** What the claims of the missing cards are. */
  ghost predicate AreClaims(l: Ledger, r: Request, provider: Provider, claims: seq<Claim>, missing: seq<Binding>) {
    && |claims| == |missing| && (forall b :: b in missing <==> New(l, r, b))
    && (forall i, j | 0 <= i < j < |missing| :: missing[i].node != missing[j].node)
    && forall i | 0 <= i < |missing| ::
         && missing[i].card in provider && (claims[i].requirement, claims[i].node) == (r.requirement, missing[i].node)
         && (forall a :: a in claims[i].aliases <==> IsAlias(provider[missing[i].card], a))
  }

  lemma FitMeansFree(l: Ledger, r: Request, provider: Provider, claims: seq<Claim>, missing: seq<Binding>)
    requires Closed(l) && WellBound(r, r.requirement) && Fit(l, claims)
    requires AreClaims(l, r, provider, claims, missing) && forall b | New(l, r, b) :: Known(Some(provider), b)
    ensures forall b | New(l, r, b) :: forall a | IsAlias(provider[b.card], a) :: a !in l
    ensures forall b, b', a | New(l, r, b) && New(l, r, b') && b != b' :: !(IsAlias(provider[b.card], a) && IsAlias(provider[b'.card], a))
  {
    hide Closed, WellBound, Known, IsAlias;
    forall i | 0 <= i < |missing| ensures forall a | a in claims[i].aliases :: a !in l { NotYet(l, r, provider, claims, missing, i); }
    forall i, j | 0 <= i < j < |missing| ensures forall a :: !(a in claims[i].aliases && a in claims[j].aliases) {
      assert claims[i].node != claims[j].node;
    }
    forall b, b', a | New(l, r, b) && New(l, r, b') && b != b' ensures !(IsAlias(provider[b.card], a) && IsAlias(provider[b'.card], a)) {
      assert b in missing && b' in missing;
      var i :| 0 <= i < |missing| && missing[i] == b;
      var j :| 0 <= j < |missing| && missing[j] == b';
      assert if i < j then !(a in claims[i].aliases && a in claims[j].aliases) else !(a in claims[j].aliases && a in claims[i].aliases);
    }
    forall b | New(l, r, b) ensures forall a | IsAlias(provider[b.card], a) :: a !in l {
      assert b in missing;
      var i :| 0 <= i < |missing| && missing[i] == b;
    }
  }

  /** A claim whose name were there would be there under its card as well. */
  lemma NotYet(l: Ledger, r: Request, provider: Provider, claims: seq<Claim>, missing: seq<Binding>, i: nat)
    requires Closed(l) && WellBound(r, r.requirement) && Fit(l, claims) && i < |missing|
    requires AreClaims(l, r, provider, claims, missing) && forall b | New(l, r, b) :: Known(Some(provider), b)
    ensures forall a | a in claims[i].aliases :: a !in l
  {
    var b := missing[i];
    assert b in missing && New(l, r, b) && Known(Some(provider), b);
    assert b.card != "" by { var k :| 0 <= k < |r.bindings| && r.bindings[k] == b; }
    assert IsAlias(provider[b.card], b.card) && b.card in claims[i].aliases;
    assert forall a, x | a in l && x in l[a].aliases :: x in l;
  }

  lemma FreeMeansFit(l: Ledger, r: Request, provider: Provider, books: Books, sessions: seq<Session>, claims: seq<Claim>, missing: seq<Binding>)
    requires AreClaims(l, r, provider, claims, missing) && Claimable(l, r, Some(provider), books, sessions)
    ensures Fit(l, claims)
  {
    hide IdleCard, IsAlias, Known;
    forall i, a | 0 <= i < |claims| && a in claims[i].aliases ensures a !in l { assert missing[i] in missing; }
    forall i, j | 0 <= i < j < |claims| ensures forall a :: !(a in claims[i].aliases && a in claims[j].aliases) {
      assert missing[i] in missing && missing[j] in missing && missing[i] != missing[j];
      assert New(l, r, missing[i]) && New(l, r, missing[j]);
    }
  }

  /** A plan that nothing interrupts is accepted exactly under these conditions; it
      then leaves the claims of its new cards and nothing else, and a plan that is
      refused leaves the ledger as it was. */
  lemma ClaimPlanIs(l: Ledger, r: Request, planRequirement: string, provider: Option<Provider>, books: Books, sessions: seq<Session>)
    ensures var (l', ok) := OwnershipLedgers.Outcome(l, r, planRequirement, provider, books, sessions);
            && (ok <==> Accepts(l, r, planRequirement, provider, books, sessions))
            && (if ok && r.bindings != [] then ClaimsOf(l, r, provider, l') else l' == l)
  {
    hide ValidRequest, WellBound, Readable, Claimable, ClaimsOf, Commit, Prepared, Fit, LegacyIdle;
    WellBoundIs(r, planRequirement);
    if ValidRequest(r, planRequirement) && r.bindings != [] && NoneTaken(l, r) {
      assert Closed(l) by { ReadableCloses(l); }
      var missing := Missing(l, r.bindings);
      if missing == [] {
        NothingNew(l, r, provider, books, sessions);
      } else if provider.None? {
        assert New(l, r, missing[0]) by { assert missing[0] in missing; }
        UnknownCard(l, r, provider, books, sessions, missing[0]);
      } else {
        PreparedIs(r.requirement, missing, provider.value);
        var claims := Prepared(r.requirement, missing, provider.value);
        if claims.None? {
          var b :| b in missing && !Known(provider, b);
          UnknownCard(l, r, provider, books, sessions, b);
        } else {
          assert WellBound(r, r.requirement) by { SameRequirement(r, planRequirement); }
          ClaimsAre(l, r, provider.value, books, sessions, claims.value);
          CommitIs(l, claims.value, books, sessions);
          if Commit(l, claims.value, books, sessions).Some? { CommitLeaves(l, r, provider.value, books, sessions, claims.value); }
        }
      }
    }
    assert NoneTaken(l, r) <==> Readable(l) && forall b | b in r.bindings && b.card in l :: l[b.card].requirement == r.requirement && l[b.card].node == b.node;
  }

  lemma SameRequirement(r: Request, planRequirement: string)
    requires WellBound(r, planRequirement)
    ensures WellBound(r, r.requirement)
  {
  }

  lemma ReadableCloses(l: Ledger)
    requires Readable(l)
    ensures Closed(l)
  {
  }

  lemma NothingNew(l: Ledger, r: Request, provider: Option<Provider>, books: Books, sessions: seq<Session>)
    requires Missing(l, r.bindings) == []
    ensures Claimable(l, r, provider, books, sessions) && ClaimsOf(l, r, provider, l)
  {
    forall b ensures !New(l, r, b) { assert b !in Missing(l, r.bindings); }
  }

  lemma UnknownCard(l: Ledger, r: Request, provider: Option<Provider>, books: Books, sessions: seq<Session>, b: Binding)
    requires New(l, r, b) && !Known(provider, b)
    ensures !Claimable(l, r, provider, books, sessions)
  {
  }

  lemma CommitLeaves(l: Ledger, r: Request, provider: Provider, books: Books, sessions: seq<Session>, claims: seq<Claim>)
    requires Closed(l) && WellBound(r, r.requirement) && Prepared(r.requirement, Missing(l, r.bindings), provider) == Some(claims)
    requires Commit(l, claims, books, sessions).Some?
    ensures ClaimsOf(l, r, Some(provider), Commit(l, claims, books, sessions).value)
  {
    hide Commit, IsAlias, Prepared, Closed, Missing, WellBound;
    var missing, l' := Missing(l, r.bindings), Commit(l, claims, books, sessions).value;
    PreparedAre(l, r, provider, claims);
    PreparedIs(r.requirement, missing, provider);
    CommitKeepsClosed(l, claims, books, sessions);
    NewClaims(l, r, provider, claims, missing, l');
  }

  lemma NewClaims(l: Ledger, r: Request, provider: Provider, claims: seq<Claim>, missing: seq<Binding>, l': Ledger)
    requires AreClaims(l, r, provider, claims, missing) && Extends(l, l') && forall b | b in missing :: Known(Some(provider), b)
    requires forall c | c in claims :: forall a | a in c.aliases :: a in l' && l'[a] == c
    requires forall a | a in l' :: (a in l && l'[a] == l[a]) || exists c | c in claims :: a in c.aliases && l'[a] == c
    ensures ClaimsOf(l, r, Some(provider), l')
  {
    hide IsAlias, Known, Extends;
    forall b, a | New(l, r, b) && Known(Some(provider), b) && IsAlias(provider[b.card], a)
      ensures a in l' && (l'[a].requirement, l'[a].node) == (r.requirement, b.node)
      ensures forall x :: x in l'[a].aliases <==> IsAlias(provider[b.card], x)
    {
      var i :| 0 <= i < |missing| && missing[i] == b;
      assert claims[i] in claims && a in claims[i].aliases;
    }
    forall a | a in l' && a !in l ensures exists b :: New(l, r, b) && Known(Some(provider), b) && IsAlias(provider[b.card], a) {
      var c :| c in claims && a in c.aliases;
      var i :| 0 <= i < |claims| && claims[i] == c;
      assert missing[i] in missing;
      assert New(l, r, missing[i]) && Known(Some(provider), missing[i]) && IsAlias(provider[missing[i].card], a);
    }
  }

  // ----- the first engine -----

  /** The note is filed under the card's raw id, or else its id, and tells both. */
  function Note(t: Task, result: Result): (string, Entry) {
    (match t.raw case Some(raw) => if raw == "" then t.id else raw case None => t.id, Entry(Some(t.id), t.raw, Some(result)))
  }

  /** The first engine starts a card exactly when it runs nothing, the ledger can be
      read and has neither of the card's names, and nobody asked to cancel it; a
      cancellation is noted unless a session is bound to the card or it is being
      dispatched. Every note goes under the card's own key, and no event of the
      first engine touches the ledger or the plans. */
  lemma FirstEngineIs(st: State, e: Event, t: Task, outcome: string)
    requires e in [Dispatch(t), Delegate(t), Remember(t, outcome), CancelQueued(t), Halt]
    ensures var st' := Next(st, e);
            var key := Note(t, Dispatching).0;
            var starts := && st.running == None && Readable(st.ledger) && (t.id == "" || t.id !in st.ledger)
                          && (match t.raw case Some(raw) => raw == "" || raw !in st.ledger case None => true)
                          && !(key in st.books && st.books[key].result == Some(CancelRequested));
            var cancels := !t.bound && !(key in st.books && st.books[key].result == Some(Dispatching));
            && st'.ledger == st.ledger && st'.plans == st.plans && st'.sessions == st.sessions
            && match e
               case Dispatch(_) =>
                 st'.books == (if starts then st.books[key := Note(t, Dispatching).1] else st.books)
                 && st'.running == if starts then Some(t) else st.running
               case Delegate(_) => st'.books == st.books[key := Note(t, Dispatching).1] && st'.running == st.running
               case Remember(_, _) => st'.books == st.books[key := Note(t, Ended(outcome)).1] && st'.running == None
               case CancelQueued(_) =>
                 st'.books == (if cancels then st.books[key := Note(t, CancelRequested).1] else st.books) && st'.running == st.running
               case _ => st'.books == st.books && st'.running == None
  {
    hide Readable;
    NamesOfCard(t, st.ledger);
  }

  lemma NamesOfCard(t: Task, l: Ledger)
    ensures (forall n | n in NamesOf(t) :: n !in l)
            <==> (t.id == "" || t.id !in l) && (match t.raw case Some(raw) => raw == "" || raw !in l case None => true)
  {
    assert t.id != "" ==> t.id in NamesOf(t);
    match t.raw { case Some(raw) => assert raw != "" ==> raw in NamesOf(t); case None => }
  }

  /** The second engine may run a card exactly when the ledger can be read and leads
      each of the card's names to its own requirement and node. */
  lemma SecondEngineIs(l: Ledger, requirement: string, node: string, t: Task)
    ensures AllowsV2(l, requirement, node, t)
            <==> && Readable(l)
                 && (t.id != "" ==> t.id in l && (l[t.id].requirement, l[t.id].node) == (requirement, node))
                 && (match t.raw
                     case Some(raw) => raw != "" ==> raw in l && (l[raw].requirement, l[raw].node) == (requirement, node)
                     case None => true)
  {
    hide Readable;
    assert t.id != "" ==> t.id in NamesOf(t);
    match t.raw { case Some(raw) => assert raw != "" ==> raw in NamesOf(t); case None => }
  }

  /** The ledger can be read exactly when every alias on file leads to a claim with a
      requirement and a node that has it among its names, all of them proper, and
      every name of a claim leads back to that claim. */
  lemma ReadableIs(l: Ledger)
    ensures Readable(l)
            <==> forall key | key in l ::
                   && l[key].requirement != "" && l[key].node != "" && key in l[key].aliases && "" !in l[key].aliases
                   && forall a | a in l[key].aliases :: a in l && l[a] == l[key]
  {
    if forall key | key in l ::
         && l[key].requirement != "" && l[key].node != "" && key in l[key].aliases && "" !in l[key].aliases
         && forall a | a in l[key].aliases :: a in l && l[a] == l[key] {
      forall key | key in l ensures WellFormed(key, l[key]) {}
    }
    if Readable(l) {
      forall key | key in l ensures l[key].requirement != "" && l[key].node != "" && "" !in l[key].aliases { assert WellFormed(key, l[key]); }
    }
  }

  /** A plan whose two halves follow one another comes to what a call that nothing
      interrupts does, and is then done or dropped; one that did not get to its
      second half has touched nothing. */
  lemma HalvesMakeCall(st: State, r: Request, planRequirement: string, provider: Option<Provider>)
    ensures var looked := Next(st, Look(r, planRequirement, provider));
            && looked.ledger == st.ledger && |looked.plans| == |st.plans| + 1
            && var settled, k := Next(looked, Settle(|st.plans|)), |st.plans|;
            && (settled.books, settled.sessions, settled.running) == (st.books, st.sessions, st.running) && |settled.plans| == |st.plans| + 1
            && (r.requirement in st.sessions ==>
                  var (l', ok) := OwnershipLedgers.Outcome(st.ledger, r, planRequirement, provider, st.books, st.sessions[r.requirement]);
                  settled.ledger == l' && settled.plans == st.plans + [if ok then Done(r) else Dropped])
  {
    hide ValidRequest, Commit, Prepared, Readable, Missing;
    var plan := FirstHalf(st.ledger, r, planRequirement, provider);
    var looked := Next(st, Look(r, planRequirement, provider));
    assert looked.plans == st.plans + [plan];
    assert (st.plans + [plan])[|st.plans| := Done(r)] == st.plans + [Done(r)];
    assert (st.plans + [plan])[|st.plans| := Dropped] == st.plans + [Dropped];
  }

  /** The second half, whenever it comes, stores what the first prepared if by then the
      ledger can be read, the requirement's sessions are known, every card of it is
      idle and none of the names is claimed; else it stores nothing. */
  lemma SettleIs(st: State, k: nat)
    requires Closed(st.ledger) && k < |st.plans| && st.plans[k].Pending?
    ensures var r, claims, st' := st.plans[k].request, st.plans[k].claims, Next(st, Settle(k));
            var ok := && Readable(st.ledger) && r.requirement in st.sessions && Fit(st.ledger, claims)
                      && forall i | 0 <= i < |claims| :: LegacyIdle(st.books, st.sessions[r.requirement], claims[i].aliases);
            && st' == st.(ledger := st'.ledger, plans := st.plans[k := if ok then Done(r) else Dropped])
            && (!ok ==> st'.ledger == st.ledger)
            && (ok ==> Extends(st.ledger, st'.ledger)
                       && (forall i, a | 0 <= i < |claims| && a in claims[i].aliases :: a in st'.ledger && st'.ledger[a] == claims[i])
                       && forall a | a in st'.ledger :: a in st.ledger || exists i | 0 <= i < |claims| :: a in claims[i].aliases)
  {
    hide Readable, Closed, LegacyIdle, Fit, Extends;
    var r, claims := st.plans[k].request, st.plans[k].claims;
    if r.requirement in st.sessions {
      CommitIs(st.ledger, claims, st.books, st.sessions[r.requirement]);
      if Commit(st.ledger, claims, st.books, st.sessions[r.requirement]).Some? {
        CommitKeepsClosed(st.ledger, claims, st.books, st.sessions[r.requirement]);
        var l' := Commit(st.ledger, claims, st.books, st.sessions[r.requirement]).value;
        forall i, a | 0 <= i < |claims| && a in claims[i].aliases ensures a in l' && l'[a] == claims[i] { assert claims[i] in claims; }
        forall a | a in l' ensures a in st.ledger || exists i | 0 <= i < |claims| :: a in claims[i].aliases {
          if a !in st.ledger {
            var c :| c in claims && a in c.aliases;
            var i :| 0 <= i < |claims| && claims[i] == c;
          }
        }
      }
    }
  }

  /** For a plan to be settled it is the sessions last made known that count, and
      making them known changes nothing else. */
  lemma SessionsDecide(st: State, requirement: string, open: seq<Session>, k: nat)
    requires Closed(st.ledger) && k < |st.plans| && st.plans[k].Pending? && st.plans[k].request.requirement == requirement
    ensures var known, claims := Next(st, SetSessions(requirement, open)), st.plans[k].claims;
            && known == st.(sessions := known.sessions)
            && (forall r | r != requirement :: r in known.sessions <==> r in st.sessions)
            && (forall r | r != requirement && r in st.sessions :: known.sessions[r] == st.sessions[r])
            && (Next(known, Settle(k)).plans[k].Done?
                <==> && Readable(st.ledger) && Fit(st.ledger, claims)
                     && forall i | 0 <= i < |claims| :: LegacyIdle(st.books, open, claims[i].aliases))
  {
    hide Readable, Closed, LegacyIdle, Fit, Extends;
    SettleIs(Next(st, SetSessions(requirement, open)), k);
  }
}
