/** When a deployment runs, when an earlier receipt answers for it, what is then on
    file, and when a completion is granted. */
module DeploymentMeaning {
  import opened Utf8
  import opened Strings
  import opened Deployment
  import DeploymentServices

  // ----- authorities -----

  /** The merge receipt is whole: the commit and requirement it is of, and, of a
      merge that went through, the verification after it. */
  ghost predicate WholeMerge(m: Merge) {
    && m.sound && !Blank(m.receipt) && !Blank(m.requirement) && IsSha(m.sha)
    && (m.merged ==> m.verification != None && m.verification != Some(""))
  }

  /** The authorization names the requirement, commit, receipt and verification of
      its merge. */
  ghost predicate NamesItsMerge(a: Authority) {
    && WholeMerge(a.merge) && a.verification != "" && a.merge.verification == Some(a.verification)
    && a.authorization == Authorization(a.authorization.id, a.merge.requirement, a.authorization.environment, a.merge.sha,
                                        a.merge.receipt, a.verification, a.authorization.requestedBy, a.authorization.issuedAt)
  }

  /** Recording stores an authority exactly when its id is a safe name that is not
      taken and it names its own merge; nothing else ever changes. */
  lemma RecordIs(st: State, a: Authority)
    ensures var st' := Next(st, Record(a));
            st' == st.(authorities := if IsIdentifier(a.authorization.id) && a.authorization.id !in st.authorities && NamesItsMerge(a)
                                      then st.authorities[a.authorization.id := a] else st.authorities)
  {
    hide IsIdentifier, IsSha, Blank;
  }

  // ----- deploying -----

  /** The checkout is the clean main branch at the merged commit, and the remote is
      there too where the policy asks for it. */
  ghost predicate AtMerged(r: Request, main: Main) {
    && main.branch == Some("main") && main.clean && main.head == r.merge.sha
    && (r.policy.remoteMain ==> main.remote == Some(r.merge.sha))
  }

  /** The request is the recorded authority's, of a merge that went through, for the
      policy's own environment, and the checkout is where it must be. */
  ghost predicate Allowed(st: State, r: Request) {
    && IsIdentifier(r.authorization.id) && r.authorization.id in st.authorities
    && st.authorities[r.authorization.id] == Authority(r.authorization, r.merge, r.verification)
    && NamesItsMerge(Authority(r.authorization, r.merge, r.verification))
    && r.merge.merged && r.authorization.environment == r.policy.environment && AtMerged(r, r.before)
  }

  function FileName(r: Request): string {
    r.policy.project + "-" + r.policy.environment + "-" + r.merge.sha + "-" + r.policy.version + ".json"
  }

  /** A signed receipt that ended one way or the other and is of this very request. */
  ghost predicate ReceiptOf(r: Request, receipt: Receipt) {
    var f := receipt.facts;
    && receipt.integrity == Signed(f) && (f.status == "succeeded" || f.status == "failed")
    && (f.requirement, f.environment, f.commit, f.version) == (r.authorization.requirement, r.policy.environment, r.authorization.commit, r.policy.version)
    && (f.project, f.provider) == (r.policy.project, r.policy.provider)
    && (f.authorization, f.requestedBy) == (r.authorization.id, r.authorization.requestedBy)
    && (f.merge, f.verification) == (r.merge.receipt, r.verification)
  }

  lemma AllowedIs(st: State, r: Request)
    ensures Allowed(st, r)
            <==> Resolve(st, r.authorization.id) == Some(Authority(r.authorization, r.merge, r.verification)) && Permitted(r, r.before)
    ensures Allowed(st, r) ==> KeyOf(r) == FileName(r) && (Permitted(r, r.locked) <==> AtMerged(r, r.locked))
  {
    hide IsIdentifier, IsSha, Blank;
  }

  lemma ReceiptIs(r: Request, receipt: Receipt)
    ensures Answers(receipt, r) <==> ReceiptOf(r, receipt)
  {
  }

  /** A deployment runs exactly when it is allowed, nothing is on file under its
      name, and the checkout is still in place under the lock; an earlier receipt
      is handed out exactly when the deployment is allowed and the receipt on file
      is of the very request. Everything else is refused. */
  lemma JudgeIs(st: State, r: Request)
    ensures Judge(st, r).Go? <==> Allowed(st, r) && FileName(r) !in st.files && AtMerged(r, r.locked)
    ensures forall receipt :: Judge(st, r) == Reuse(receipt)
                              <==> Allowed(st, r) && FileName(r) in st.files && st.files[FileName(r)] == Deployed(receipt) && ReceiptOf(r, receipt)
  {
    hide Resolve, Permitted, Answers, ReceiptOf, Allowed, AtMerged, Key, FileName;
    AllowedIs(st, r);
    if Allowed(st, r) && FileName(r) in st.files && st.files[FileName(r)].Deployed? { ReceiptIs(r, st.files[FileName(r)].receipt); }
  }

  /** The recorded authority is the request's and names its merge. */
  ghost predicate Backed(st: State, r: Request) {
    && IsIdentifier(r.authorization.id) && r.authorization.id in st.authorities
    && st.authorities[r.authorization.id] == Authority(r.authorization, r.merge, r.verification)
    && NamesItsMerge(Authority(r.authorization, r.merge, r.verification))
  }

  ghost predicate OnMain(r: Request) {
    r.before.branch == Some("main") && r.before.clean && r.before.head == r.authorization.commit
  }

  /** Of a request that is not backed, the code tells whether its id is no safe name,
      or not recorded, or recorded for something else or unsoundly. Of one that is,
      whether the checkout is not the clean main branch at its commit, or ahead of
      or behind the remote, or the environment is another, or the merge did not
      go through. */
  lemma RefusalTells(st: State, r: Request)
    requires !Allowed(st, r)
    ensures Judge(st, r).Refuse?
    ensures var code, id := Judge(st, r).code, r.authorization.id;
            if !Backed(st, r) then
              code == if !IsIdentifier(id) then "invalid_authorization" else if id !in st.authorities then "authority_missing"
                      else if NamesItsMerge(st.authorities[id]) then "authority_mismatch" else "invalid_authorization"
            else
              code == if !OnMain(r) then "not_protected_main"
                      else if r.policy.remoteMain && r.before.remote != Some(r.merge.sha) then "remote_main_drift"
                      else if r.authorization.environment != r.policy.environment then "authorization_mismatch" else "invalid_merge_receipt"
  {
    hide IsIdentifier, IsSha, Blank, Key, Answers;
  }

  /** Of an allowed request that does not run and is not answered, the code tells what
      is on file: a deployment that was interrupted, something that is no receipt,
      a receipt with a wrong signature, or one of another request. */
  lemma FileRefuses(st: State, r: Request)
    requires Allowed(st, r) && FileName(r) in st.files
    ensures Judge(st, r) == match st.files[FileName(r)]
                            case InProgress(_, _, _, _) => Refuse("deployment_uncertain")
                            case Deployed(receipt) =>
                              if receipt.integrity != Signed(receipt.facts) then Refuse("receipt_tampered")
                              else if ReceiptOf(r, receipt) then Reuse(receipt) else Refuse("receipt_mismatch")
                            case _ => Refuse("receipt_corrupt")
  {
    hide Resolve, Permitted, Answers, ReceiptOf, Allowed, AtMerged, Key, FileName;
    AllowedIs(st, r);
    if st.files[FileName(r)].Deployed? {
      ReceiptIs(r, st.files[FileName(r)].receipt);
      Signature(r, st.files[FileName(r)].receipt);
    }
  }

  lemma Signature(r: Request, receipt: Receipt)
    ensures ReceiptOf(r, receipt) ==> receipt.integrity == Signed(receipt.facts)
  {
  }

  /** What a deployment that ran leaves: the receipt of what the provider said,
      signed, under the request's name, one more call, and nothing else. */
  lemma DeployLeaves(st: State, r: Request, success: bool, detail: string, rollback: string, id: string, completedAt: string, main: Main)
    requires Judge(st, r).Go? && FileName(r) !in st.active
    ensures var name := FileName(r);
            var called := Next(Next(st, Begin(r)), Call(name, success, detail, rollback));
            var facts := Facts(id, r.authorization.requirement, r.policy.environment, r.authorization.commit, r.policy.version,
                               if success then "succeeded" else "failed", r.startedAt, completedAt, rollback, detail, r.policy.project,
                               r.policy.provider, r.authorization.id, r.authorization.requestedBy, r.merge.receipt, r.verification, Some(main));
            Next(called, Finish(name, id, completedAt, main))
            == State(st.files[name := Deployed(Receipt(facts, Signed(facts)))], st.authorities, st.active,
                     st.calls + [ProviderCall(name, r.policy.environment, r.authorization.commit, r.authorization.requirement, success)])
  {
    hide FileName, Allowed, AtMerged, Key, Judge;
    JudgeIs(st, r);
    AllowedIs(st, r);
    var name := FileName(r);
    var s1 := Next(st, Begin(r));
    assert s1 == st.(files := st.files[name := Intent(r)], active := st.active[name := Claimed(r)]);
    var s2 := Next(s1, Call(name, success, detail, rollback));
    assert s2.active == st.active[name := Called(r, success, detail, rollback)];
    assert s2.active - {name} == st.active;
    assert s2.files[name := Deployed(Outcome(r, success, detail, rollback, id, completedAt, main))]
        == st.files[name := Deployed(Outcome(r, success, detail, rollback, id, completedAt, main))];
  }

  /** An interrupted deployment leaves its name and what it was of. */
  lemma IntentIs(st: State, r: Request)
    requires Judge(st, r).Go? && FileName(r) !in st.active
    ensures Next(st, Begin(r)).files
         == st.files[FileName(r) := InProgress(r.authorization.id, r.authorization.requirement, r.authorization.commit, r.startedAt)]
  {
    hide FileName, Allowed, AtMerged, Key, Judge;
    JudgeIs(st, r);
    AllowedIs(st, r);
  }

  /** One that crashes, before the provider was called or after, leaves that, with the
      call if there was one, and its lock is free again. */
  lemma CrashLeaves(st: State, r: Request, called: bool, success: bool, detail: string, rollback: string)
    requires Judge(st, r).Go? && FileName(r) !in st.active
    ensures var (name, begun) := (FileName(r), Next(st, Begin(r)));
            Next(if called then Next(begun, Call(name, success, detail, rollback)) else begun, Crash(name))
            == State(st.files[name := InProgress(r.authorization.id, r.authorization.requirement, r.authorization.commit, r.startedAt)],
                     st.authorities, st.active,
                     if called then
                       st.calls + [ProviderCall(name, r.policy.environment, r.authorization.commit, r.authorization.requirement, success)]
                     else st.calls)
  {
    hide FileName, Allowed, AtMerged, Key, Judge;
    JudgeIs(st, r);
    AllowedIs(st, r);
    var name := FileName(r);
    assert Next(st, Begin(r)).active == st.active[name := Claimed(r)];
    assert st.active[name := Claimed(r)] - {name} == st.active;
    assert st.active[name := Claimed(r)][name := Called(r, success, detail, rollback)] - {name} == st.active;
  }

  /** An error of the provider is a failure that says so. */
  lemma ProviderErrors(message: string)
    ensures !DeploymentServices.Success(DeploymentServices.Raised(message))
    ensures DeploymentServices.Detail(DeploymentServices.Raised(message)) == "Provider unavailable: " + message
    ensures DeploymentServices.Rollback(DeploymentServices.Raised(message)) == ""
  {
  }

  // ----- completing -----

  /** What a required completion needs: the signed receipt of a success of this
      requirement and commit, on file under a deployment's name. */
  ghost predicate Proves(st: State, c: Completion) {
    && c.receipt.Some?
    && var receipt := c.receipt.value;
    && receipt.integrity == Signed(receipt.facts) && receipt.facts.status == "succeeded"
    && receipt.facts.commit == c.commit && receipt.facts.requirement == c.requirement
    && exists name | name in st.files :: st.files[name] == Deployed(receipt) && !("completion-" <= name)
  }

  /** The name of a completion: it tells the receipt, or that none was required. */
  function CompletionName(c: Completion): string {
    "completion-" + c.policy.environment + "-" + c.requirement + "-" + c.commit + "-"
    + (if c.receipt == None || c.receipt.value.facts.receipt == "" then "not-required" else c.receipt.value.facts.receipt) + ".json"
  }

  /** A completion is granted exactly when it proves what is required; with its name
      free it gets a token of its own, which is stored; else the token on file, if
      that is one and as much was required for it. Nothing else is written. */
  lemma CompleteIs(st: State, c: Completion)
    ensures var name := CompletionName(c);
            var own := Token(c.id, c.requirement, c.commit, if c.receipt.Some? then Some(c.receipt.value.facts.receipt) else None,
                             c.issuedAt, c.policy.required, c.policy.environment);
            && CompleteAnswer(st, c) ==
               (if c.policy.required && !Proves(st, c) then None
                else if name !in st.files then Some(own)
                else if st.files[name].Done? && st.files[name].token.required == c.policy.required then Some(st.files[name].token)
                else None)
            && Next(st, Complete(c)) ==
               if (c.policy.required ==> Proves(st, c)) && name !in st.files then st.(files := st.files[name := Done(own)]) else st
  {
    hide CompletionName;
    assert CompletionName(c) == NameOf(c) by { NamesAgree(c); }
  }

  lemma NamesAgree(c: Completion)
    ensures CompletionName(c) == NameOf(c)
  {
  }
}
