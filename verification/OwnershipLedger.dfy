/** The ownership ledger as an object: claim_plan fills a working copy claim by
    claim and alias by alias, and stores it only when nothing was refused. */
module OwnershipLedgers {
  import opened Utf8
  import opened Ownership

  /** What claim_plan leaves when nothing runs in between: the ledger, and
      whether it returned. */
  function Outcome(l: Ledger, r: Request, planRequirement: string, provider: Option<Provider>, books: Books, sessions: seq<Session>)
    : (Ledger, bool)
  {
    match FirstHalf(l, r, planRequirement, provider)
    case Done(_) => (l, true)
    case Dropped => (l, false)
    case Pending(_, claims) =>
      var l' := Commit(l, claims, books, sessions);
      if l'.Some? then (l'.value, true) else (l, false)
  }

  class ExecutionOwnership {
    var claims: Ledger

    constructor ()
      ensures claims == map[]
    {
      claims := map[];
    }

    method MissingOf(bindings: seq<Binding>) returns (missing: seq<Binding>)
      ensures missing == Missing(claims, bindings)
    {
      missing := [];
      var i := 0;
      while i < |bindings|
        invariant i <= |bindings| && missing == Missing(claims, bindings[..i])
      {
        assert bindings[..i + 1][..i] == bindings[..i];
        if bindings[i].card !in claims { missing := missing + [bindings[i]]; }
        i := i + 1;
      }
      assert bindings[..i] == bindings;
    }

    method Prepare(requirement: string, missing: seq<Binding>, provider: Provider) returns (prepared: Option<seq<Claim>>)
      ensures prepared == Prepared(requirement, missing, provider)
    {
      var done: seq<Claim> := [];
      var i := 0;
      while i < |missing|
        invariant i <= |missing| && Some(done) == Prepared(requirement, missing[..i], provider)
      {
        var b := missing[i];
        assert missing[..i + 1][..i] == missing[..i];
        if b.card !in provider || !Identifies(provider[b.card], b.card) {
          NeverPrepared(requirement, missing, i + 1, provider);
          return None;
        }
        done := done + [Claim(requirement, b.node, AliasesOf(provider[b.card]))];
        i := i + 1;
      }
      assert missing[..i] == missing;
      return Some(done);
    }

    /** Under the second lock. */
    method CommitAll(prepared: seq<Claim>, books: Books, sessions: seq<Session>) returns (ok: bool)
      modifies this
      ensures var l' := Commit(old(claims), prepared, books, sessions);
              ok == l'.Some? && claims == if ok then l'.value else old(claims)
    {
      var working := claims;
      var i := 0;
      while i < |prepared|
        invariant i <= |prepared| && claims == old(claims)
        invariant Some(working) == Commit(claims, prepared[..i], books, sessions)
      {
        var record := prepared[i];
        assert prepared[..i + 1][..i] == prepared[..i];
        if !LegacyIdle(books, sessions, record.aliases) {
          NeverCommitted(claims, prepared, i + 1, books, sessions);
          return false;
        }
        ghost var before := working;
        var k := 0;
        while k < |record.aliases|
          invariant k <= |record.aliases| && claims == old(claims)
          invariant Some(working) == PutAliases(before, record, record.aliases[..k])
        {
          var alias := record.aliases[k];
          assert record.aliases[..k + 1][..k] == record.aliases[..k];
          if alias in working && working[alias] != record {
            NeverPut(before, record, record.aliases, k + 1);
            NeverCommitted(claims, prepared, i + 1, books, sessions);
            return false;
          }
          working := working[alias := record];
          k := k + 1;
        }
        assert record.aliases[..k] == record.aliases;
        i := i + 1;
      }
      assert prepared[..i] == prepared;
      claims := working;
      return true;
    }

    method ClaimPlan(r: Request, planRequirement: string, provider: Option<Provider>, books: Books, sessions: seq<Session>)
      returns (ok: bool)
      modifies this
      ensures (claims, ok) == Outcome(old(claims), r, planRequirement, provider, books, sessions)
    {
      if !ValidRequest(r, planRequirement) { return false; }
      if r.bindings == [] { return true; }
      if !NoneTaken(claims, r) { return false; }
      var missing := MissingOf(r.bindings);
      if missing == [] { return true; }
      if provider.None? { return false; }
      var prepared := Prepare(r.requirement, missing, provider.value);
      if prepared.None? { return false; }
      ok := CommitAll(prepared.value, books, sessions);
    }
  }

  lemma {:induction false} NeverPrepared(requirement: string, missing: seq<Binding>, n: nat, provider: Provider)
    requires n <= |missing| && Prepared(requirement, missing[..n], provider).None?
    ensures Prepared(requirement, missing, provider).None?
    decreases |missing|
  {
    if n < |missing| {
      assert missing[..|missing| - 1][..n] == missing[..n];
      NeverPrepared(requirement, missing[..|missing| - 1], n, provider);
    } else {
      assert missing[..n] == missing;
    }
  }

  lemma {:induction false} NeverPut(l: Ledger, c: Claim, aliases: seq<string>, n: nat)
    requires n <= |aliases| && PutAliases(l, c, aliases[..n]).None?
    ensures PutAliases(l, c, aliases).None?
    decreases |aliases|
  {
    if n < |aliases| {
      assert aliases[..|aliases| - 1][..n] == aliases[..n];
      NeverPut(l, c, aliases[..|aliases| - 1], n);
    } else {
      assert aliases[..n] == aliases;
    }
  }

  lemma {:induction false} NeverCommitted(l: Ledger, claims: seq<Claim>, n: nat, books: Books, sessions: seq<Session>)
    requires n <= |claims| && Commit(l, claims[..n], books, sessions).None?
    ensures Commit(l, claims, books, sessions).None?
    decreases |claims|
  {
    hide LegacyIdle;
    if n < |claims| {
      var front := claims[..|claims| - 1];
      assert front[..n] == claims[..n];
      NeverCommitted(l, front, n, books, sessions);
    } else {
      assert claims[..n] == claims;
    }
  }
}
