/** The deployment service over its root directory, as the steps it takes. */
module DeploymentServices {
  import opened Utf8
  import opened Strings
  import opened Deployment

  /** What provider.deploy came to: an answer, or one of the errors deploy
      catches. */
  datatype Provider = Answered(success: bool, detail: string, rollback: string) | Raised(message: string)

  function Success(p: Provider): bool {
    p.Answered? && p.success
  }

  function Detail(p: Provider): string {
    if p.Answered? then p.detail else "Provider unavailable: " + p.message
  }

  function Rollback(p: Provider): string {
    if p.Answered? then p.rollback else ""
  }

  datatype Answer = Returned(receipt: Receipt) | Failed(code: string)

  class DeploymentService {
    const policy: Policy
    /** The files of the root, and the recorded authorities. */
    var files: map<string, Document>
    var authorities: map<string, Authority>
    /** Deployments in progress in other processes, and every provider call. */
    ghost var active: map<string, Active>
    ghost var calls: seq<ProviderCall>

    constructor (policy: Policy)
      ensures this.policy == policy && View() == EMPTY
    {
      this.policy := policy;
      files, authorities, active, calls := map[], map[], map[], [];
    }

    ghost function View(): State
      reads this
    {
      State(files, authorities, active, calls)
    }

    /** DeploymentAuthorityStore.record: an ID is bound once. */
    method Record(a: Authority) returns (ok: bool)
      modifies this
      ensures View() == Next(old(View()), Event.Record(a))
      ensures ok ==> a.authorization.id in authorities && authorities[a.authorization.id] == a
      ensures !ok ==> View() == old(View())
    {
      if !AuthoritySound(a) || !IsIdentifier(a.authorization.id) { return false; }
      if a.authorization.id in authorities { return authorities[a.authorization.id] == a; }
      authorities := authorities[a.authorization.id := a];
      return true;
    }

    /** resolve, which reads the authorities only. */
    method ResolveAt(id: string) returns (a: Option<Authority>)
      ensures a == Resolve(View(), id)
    {
      if !IsIdentifier(id) || id !in authorities { return None; }
      var found := authorities[id];
      return if AuthoritySound(found) && found.authorization.id == id then Some(found) else None;
    }

    /** The lock on the key is held: no other process is deploying under it. */
    method Deploy(r: Request, provider: Provider, id: string, completedAt: string, main: Main) returns (answer: Answer)
      requires r.policy == policy && KeyOf(r) !in active
      modifies this
      ensures var was := old(View());
              match Judge(was, r)
              case Go =>
                var key := KeyOf(r);
                var begun := Next(was, Begin(r));
                var called := Next(begun, Call(key, Success(provider), Detail(provider), Rollback(provider)));
                && View() == Next(called, Finish(key, id, completedAt, main))
                && key in files && answer.Returned? && files[key] == Deployed(answer.receipt)
              case Reuse(receipt) => View() == was && answer == Returned(receipt)
              case Refuse(code) => View() == was && answer == Failed(code)
    {
      hide Resolve, Permitted, Answers, Intact, AuthorityCode, PermitCode, Key, Outcome, Success, Detail, Rollback;
      var recorded := ResolveAt(r.authorization.id);
      if recorded != Some(Authority(r.authorization, r.merge, r.verification)) {
        return Failed(AuthorityCode(authorities, r.authorization.id));
      }
      if !Permitted(r, r.before) { return Failed(PermitCode(r, r.before)); }
      var key := KeyOf(r);
      if key in files {
        match files[key] {
          case InProgress(_, _, _, _) => return Failed("deployment_uncertain");
          case Deployed(receipt) =>
            if Answers(receipt, r) { return Returned(receipt); }
            return Failed(if Intact(receipt) then "receipt_mismatch" else "receipt_tampered");
          case _ => return Failed("receipt_corrupt");
        }
      }
      if !Permitted(r, r.locked) { return Failed(PermitCode(r, r.locked)); }
      files := files[key := Intent(r)];
      var success, detail, rollback := Success(provider), Detail(provider), Rollback(provider);
      calls := calls + [ProviderCall(key, r.policy.environment, r.authorization.commit, r.authorization.requirement, success)];
      var receipt := Outcome(r, success, detail, rollback, id, completedAt, main);
      files := files[key := Deployed(receipt)];
      assert active == active[key := Called(r, success, detail, rollback)] - {key};
      return Returned(receipt);
    }

    /** _receipt_is_persisted: look through every file of the root. */
    method IsPersisted(receipt: Receipt) returns (found: bool)
      ensures found == Persisted(View(), receipt)
    {
      if !Intact(receipt) { return false; }
      var names := files.Keys;
      while names != {}
        invariant names <= files.Keys
        invariant forall name | name in files && name !in names ::
                    "completion-" <= name || files[name] != Deployed(receipt)
        decreases |names|
      {
        var name :| name in names;
        if !("completion-" <= name) && files[name] == Deployed(receipt) { return true; }
        names := names - {name};
      }
      return false;
    }

    method Complete(c: Completion) returns (token: Option<Token>)
      requires c.policy == policy
      modifies this
      ensures View() == Next(old(View()), Event.Complete(c)) && token == CompleteAnswer(old(View()), c)
    {
      hide TokenName, Persisted;
      if policy.required {
        if c.receipt.None? || c.receipt.value.facts.status != "succeeded"
           || c.receipt.value.facts.commit != c.commit || c.receipt.value.facts.requirement != c.requirement { return None; }
        var persisted := IsPersisted(c.receipt.value);
        if !persisted { return None; }
      }
      var name := NameOf(c);
      if name in files {
        match files[name] {
          case Done(existing) => return if existing.required == policy.required then Some(existing) else None;
          case _ => return None;
        }
      }
      files := files[name := Done(NewToken(c))];
      return Some(NewToken(c));
    }
  }
}
