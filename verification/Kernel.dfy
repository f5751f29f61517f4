/** Capability issue and verification over the durable snapshot (kernel.py), and the identifier checks it uses. */
module Kernel {
  import opened Base
  import opened Model
  import opened Policy
  import opened Durable

  /** `canonical_effect_id` accepts exactly the non-empty printable ASCII strings, unchanged. */
  predicate CanonicalEffectId(s: string) {
    s != "" && forall c | c in s :: '!' <= c <= '~'
  }

  /** `canonical_outcome_key` accepts exactly the non-empty lowercase hexadecimal strings, unchanged. */
  predicate CanonicalOutcomeKey(s: string) {
    s != "" && forall c | c in s :: '0' <= c <= '9' || 'a' <= c <= 'f'
  }

  predicate EffectClass(action: string) {
    action == "READ" || action == "WRITE" || action == "NETWORK" || action == "PROCESS"
  }

  /** Everything a capability's MAC covers. */
  datatype Claims = Claims(
    txid: string, sequence: int, nonce: string, epoch: int, bootId: string, principal: string,
    domain: string, action: string, effectClass: string, mutation: MutationClass,
    stateDigest: StateDoc, paramsDigest: string, effectId: string, outcomeKey: string)

  /** An ideal MAC under the kernel secret. */
  datatype Mac = Mac(over: Claims)

  datatype Capability = Capability(claims: Claims, mac: Mac)

  datatype KernelError =
    | BadIdentity
    | UnsupportedAction
    | BootMismatch
    | NotAuthorized
    | ProposalRevokes
    | Transition(denial: Denial)
    | NonceReplay

  /** Arguments of `issue`; `params` stands for the canonical bytes whose digest is bound. */
  datatype IssueRequest = IssueRequest(
    principal: string, domain: string, action: string, proposed: SystemState, nonce: string,
    params: string, effectId: Option<string>, outcomeKey: Option<string>)

  function OrEmpty(s: Option<string>): string {
    if s.Some? then s.value else ""
  }

  function EntryOf(c: Claims): CommitEntry {
    CommitEntry(c.txid, c.sequence, c.nonce, c.epoch, c.principal, c.domain, c.action, c.effectClass,
                c.mutation, c.stateDigest, c.paramsDigest, c.effectId, c.outcomeKey)
  }

  function ClaimsOf(s: Snapshot, bootId: string, q: IssueRequest, txid: string, mutation: MutationClass): Claims {
    Claims(txid, s.sequence + 1, q.nonce, q.proposed.epoch, bootId, q.principal, q.domain, q.action, q.action,
           mutation, q.proposed.Canonical(), q.params, OrEmpty(q.effectId), OrEmpty(q.outcomeKey))
  }

  function Issued(s: Snapshot, bootId: string, q: IssueRequest, c: Claims): Snapshot {
    Snapshot(q.proposed.epoch, s.sequence + 1, s.nonces + {q.nonce}, s.consumed, s.commits + [EntryOf(c)],
             Payload(q.proposed.Canonical(), s.payload.refusals), bootId, s.effects, s.pending)
  }

  /** The checks of `issue` that precede the transition check. */
  function IssueObstacle(s: Snapshot, bootId: string, q: IssueRequest): Option<KernelError> {
    if q.effectId.Some? && !CanonicalEffectId(q.effectId.value) then Some(BadIdentity)
    else if q.outcomeKey.Some? && !CanonicalOutcomeKey(q.outcomeKey.value) then Some(BadIdentity)
    else if !EffectClass(q.action) then Some(UnsupportedAction)
    else if s.bootId != "" && s.bootId != bootId then Some(BootMismatch)
    else if q.action !in s.payload.state.Revive().Perms(q.principal, q.domain) then Some(NotAuthorized)
    else if q.action !in q.proposed.Perms(q.principal, q.domain) then Some(ProposalRevokes)
    else None
  }

  /** `issue`: the new snapshot and the capability, or the error that left the snapshot alone. */
  ghost function Issue(s: Snapshot, bootId: string, q: IssueRequest, txid: string)
    : Result<(Snapshot, Capability), KernelError>
  {
    match IssueObstacle(s, bootId, q)
    case Some(e) => Err(e)
    case None =>
      match Verdict(s.payload.state.Revive(), q.proposed, q.principal)
      case Err(d) => Err(Transition(d))
      case Ok(delta) =>
        if q.nonce in s.nonces then Err(NonceReplay)
        else
          var c := ClaimsOf(s, bootId, q, txid, delta.mutation);
          Ok((Issued(s, bootId, q, c), Capability(c, Mac(c))))
  }

  method IssueCapability(s: Snapshot, bootId: string, q: IssueRequest, txid: string)
    returns (r: Result<(Snapshot, Capability), KernelError>)
    ensures r == Issue(s, bootId, q, txid)
  {
    var obstacle := IssueObstacle(s, bootId, q);
    if obstacle.Some? {
      return Err(obstacle.value);
    }
    var verdict := ValidateTransition(s.payload.state.Revive(), q.proposed, q.principal);
    if verdict.Err? {
      return Err(Transition(verdict.error));
    }
    if q.nonce in s.nonces {
      return Err(NonceReplay);
    }
    var c := ClaimsOf(s, bootId, q, txid, verdict.value.mutation);
    return Ok((Issued(s, bootId, q, c), Capability(c, Mac(c))));
  }

  /** The syntax of the two identifiers and the effect classes, spelled out. */
  ghost predicate Printable(s: string) {
    |s| > 0 && forall c | c in s :: 0x21 <= c as int <= 0x7e
  }

  ghost predicate LowerHex(s: string) {
    |s| > 0 && forall c | c in s :: c in "0123456789abcdef"
  }

  lemma SyntaxExactly(s: string)
    ensures CanonicalEffectId(s) <==> Printable(s)
    ensures CanonicalOutcomeKey(s) <==> LowerHex(s)
    ensures EffectClass(s) <==> s in ["READ", "WRITE", "NETWORK", "PROCESS"]
  {
    forall c | c in s ensures ('0' <= c <= '9' || 'a' <= c <= 'f') <==> c in "0123456789abcdef" {
      HexExactly(c);
    }
  }

  lemma HexExactly(c: char)
    ensures ('0' <= c <= '9' || 'a' <= c <= 'f') <==> c in "0123456789abcdef"
  {
    var hex := "0123456789abcdef";
    if '0' <= c <= '9' {
      assert hex[c as int - '0' as int] == c;
    } else if 'a' <= c <= 'f' {
      assert hex[10 + c as int - 'a' as int] == c;
    }
  }

  /** The arguments of `issue` are well formed. */
  ghost predicate WellFormed(q: IssueRequest) {
    && (q.effectId.Some? ==> Printable(q.effectId.value))
    && (q.outcomeKey.Some? ==> LowerHex(q.outcomeKey.value))
  }

  /** What `issue` answers: a capability, or the error of the first check that fails. */
  lemma IssueAnswers(s: Snapshot, bootId: string, q: IssueRequest, txid: string)
    ensures var live := s.payload.state.Revive();
            var formed := WellFormed(q);
            var known := formed && q.action in ["READ", "WRITE", "NETWORK", "PROCESS"];
            var ours := known && (s.bootId == "" || s.bootId == bootId);
            var granted := ours && q.action in live.Perms(q.principal, q.domain);
            var kept := granted && q.action in q.proposed.Perms(q.principal, q.domain);
            var verdict := Verdict(live, q.proposed, q.principal);
            match Issue(s, bootId, q, txid)
            case Err(BadIdentity) => !formed
            case Err(UnsupportedAction) => formed && !known
            case Err(BootMismatch) => known && !ours
            case Err(NotAuthorized) => ours && !granted
            case Err(ProposalRevokes) => granted && !kept
            case Err(Transition(d)) => kept && verdict == Err(d)
            case Err(NonceReplay) => kept && verdict.Ok? && q.nonce in s.nonces
            case Ok(_) => kept && verdict.Ok? && q.nonce !in s.nonces
  {
    if q.effectId.Some? {
      SyntaxExactly(q.effectId.value);
    }
    if q.outcomeKey.Some? {
      SyntaxExactly(q.outcomeKey.value);
    }
    SyntaxExactly(q.action);
    hide Verdict, CanonicalEffectId, CanonicalOutcomeKey, EffectClass, Printable, LowerHex;
    hide ClaimsOf, Issued, StateDoc.Revive, SystemState.Perms;
  }

  /** `issue` succeeds exactly when all of this holds. */
  lemma IssuesExactly(s: Snapshot, bootId: string, q: IssueRequest, txid: string)
    ensures var live := s.payload.state.Revive();
            Issue(s, bootId, q, txid).Ok? <==>
              && WellFormed(q) && q.action in ["READ", "WRITE", "NETWORK", "PROCESS"]
              && (s.bootId == "" || s.bootId == bootId)
              && q.action in live.Perms(q.principal, q.domain)
              && q.action in q.proposed.Perms(q.principal, q.domain)
              && q.proposed.epoch == live.epoch + 1 && Attenuates(live, q.proposed, q.principal)
              && (SamePermissions(live, q.proposed) || !exists path :: Cycle(q.proposed.governance, path))
              && q.nonce !in s.nonces
  {
    var live := s.payload.state.Revive();
    IssueAnswers(s, bootId, q, txid);
    AcceptedExactly(live, q.proposed, q.principal);
    CyclicExactly(q.proposed.governance);
    hide Issue, Verdict, Attenuates, SamePermissions, Cyclic, Cycle, WellFormed;
  }

  /** The kernel's own record of the capability, among the durable commits. */
  predicate Recorded(s: Snapshot, c: Claims) {
    exists r | r in s.commits ::
      && r.txid == c.txid && r.sequence == c.sequence && r.nonce == c.nonce
      && r.stateDigest == c.stateDigest && r.effectClass == c.effectClass
      && r.paramsDigest == c.paramsDigest && r.effectId == c.effectId && r.outcomeKey == c.outcomeKey
  }

  predicate VerifyLocked(s: Snapshot, bootId: string, cap: Capability, principal: string, domain: string,
                         action: string, effectClass: string)
  {
    var c := cap.claims;
    && c.bootId == bootId && c.principal == principal && c.domain == domain && c.action == action
    && c.effectClass == effectClass && c.epoch == s.epoch
    && c.paramsDigest != ""
    && (c.effectId == "" || CanonicalEffectId(c.effectId))
    && (c.outcomeKey == "" || CanonicalOutcomeKey(c.outcomeKey))
    && cap.mac == Mac(c)
    && Recorded(s, c)
  }

  /** In any snapshot at all: the request and the boot match, the MAC covers the claims, and the store has the commit. */
  lemma VerifiedExactly(s: Snapshot, bootId: string, cap: Capability, principal: string, domain: string,
                        action: string, effectClass: string)
    ensures VerifyLocked(s, bootId, cap, principal, domain, action, effectClass) <==>
      var c := cap.claims;
      && (c.bootId, c.principal, c.domain, c.action, c.effectClass, c.epoch)
           == (bootId, principal, domain, action, effectClass, s.epoch)
      && c.paramsDigest != "" && (c.effectId != "" ==> Printable(c.effectId))
      && (c.outcomeKey != "" ==> LowerHex(c.outcomeKey))
      && cap.mac.over == c
      && exists i :: 0 <= i < |s.commits|
                     && (s.commits[i].txid, s.commits[i].sequence, s.commits[i].nonce) == (c.txid, c.sequence, c.nonce)
                     && (s.commits[i].stateDigest, s.commits[i].effectClass) == (c.stateDigest, c.effectClass)
                     && (s.commits[i].paramsDigest, s.commits[i].effectId) == (c.paramsDigest, c.effectId)
                     && s.commits[i].outcomeKey == c.outcomeKey
  {
    SyntaxExactly(cap.claims.effectId);
    SyntaxExactly(cap.claims.outcomeKey);
    hide CanonicalEffectId, CanonicalOutcomeKey, Printable, LowerHex;
  }
}
