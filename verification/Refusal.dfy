/** Authenticated refusals and their effect on the local snapshot (refusal.py). */
module Refusal {
  import opened Base
  import opened Durable
  import opened Kernel

  /** An ideal MAC under one principal's credential. */
  datatype Signature = Signature(credential: string, over: RefusalRecord)

  datatype RefusalIntent = RefusalIntent(body: RefusalRecord, mac: Signature)

  type Credentials = map<string, string>

  datatype RefusalError =
    | UnknownPrincipal
    | MalformedIdentity
    | BadAuthentication
    | NotNewer

  /** `issue`: a signed refusal whose target epoch is later than the current one. */
  function IssueRefusal(creds: Credentials, s: Snapshot, principal: string, effectId: string, txid: string,
                        target: Option<int>, id: string, issuedAt: int, outcomeKey: Option<string>)
    : (r: Result<RefusalIntent, RefusalError>)
  {
    if principal !in creds then Err(UnknownPrincipal)
    else if !CanonicalEffectId(effectId) || (outcomeKey.Some? && !CanonicalOutcomeKey(outcomeKey.value)) then
      Err(MalformedIdentity)
    else
      var wanted := if target.Some? then target.value else s.epoch;
      var epoch := if wanted <= s.epoch then s.epoch + 1 else wanted;
      var body := RefusalRecord(id, principal, effectId, txid, epoch, issuedAt, OrEmpty(outcomeKey));
      Ok(RefusalIntent(body, Signature(creds[principal], body)))
  }

  predicate Verify(creds: Credentials, r: RefusalIntent) {
    && r.body.principal in creds
    && CanonicalEffectId(r.body.effectId)
    && (r.body.outcomeKey == "" || CanonicalOutcomeKey(r.body.outcomeKey))
    && r.mac == Signature(creds[r.body.principal], r.body)
  }

  predicate HasRefusal(s: Snapshot, r: RefusalIntent) {
    exists x | x in s.payload.refusals :: x.id == r.body.id && x.outcomeKey == r.body.outcomeKey
  }

  function AppendRefusal(s: Snapshot, r: RefusalIntent): Snapshot {
    var refusals := if HasRefusal(s, r) then s.payload.refusals else s.payload.refusals + [r.body];
    s.(epoch := r.body.targetEpoch, sequence := s.sequence + 1,
       payload := Payload(s.payload.state.(epoch := r.body.targetEpoch), refusals))
  }

  /** `commit`: publish a refusal locally; a retry of a recorded refusal changes nothing. */
  function Commit(creds: Credentials, s: Snapshot, r: RefusalIntent): Result<Snapshot, RefusalError> {
    if !Verify(creds, r) then Err(BadAuthentication)
    else if r.body.targetEpoch <= s.epoch then
      if HasRefusal(s, r) then Ok(s) else Err(NotNewer)
    else Ok(AppendRefusal(s, r))
  }

  // ----- What authenticates a refusal -----

  /** The MAC was made with the credential of the very principal the refusal names, over exactly what it says. */
  ghost predicate Authentic(creds: Credentials, r: RefusalIntent) {
    && r.body.principal in creds && r.mac.credential == creds[r.body.principal] && r.mac.over == r.body
    && Printable(r.body.effectId) && (r.body.outcomeKey != "" ==> LowerHex(r.body.outcomeKey))
  }

  /** A refusal with this id for this outcome has been recorded. */
  ghost predicate OnRecord(s: Snapshot, id: string, outcomeKey: string) {
    exists i :: 0 <= i < |s.payload.refusals|
                && s.payload.refusals[i].id == id && s.payload.refusals[i].outcomeKey == outcomeKey
  }

  /** Publication, field by field: epoch, sequence and the refusal; nothing else. */
  ghost predicate Publishes(s: Snapshot, body: RefusalRecord, t: Snapshot) {
    && t.epoch == body.targetEpoch == t.payload.state.epoch && t.sequence == s.sequence + 1
    && t.payload.state.permissions == s.payload.state.permissions
    && t.payload.state.governance == s.payload.state.governance
    && t.payload.refusals == s.payload.refusals + (if OnRecord(s, body.id, body.outcomeKey) then [] else [body])
    && t.nonces == s.nonces && t.consumed == s.consumed && t.commits == s.commits && t.bootId == s.bootId
    && t.effects == s.effects && t.pending == s.pending
  }

  lemma AuthenticExactly(creds: Credentials, r: RefusalIntent)
    ensures Verify(creds, r) <==> Authentic(creds, r)
  {
    SyntaxExactly(r.body.effectId);
    SyntaxExactly(r.body.outcomeKey);
    hide CanonicalEffectId, CanonicalOutcomeKey, Printable, LowerHex;
  }

  lemma RecordExactly(s: Snapshot, r: RefusalIntent)
    ensures HasRefusal(s, r) <==> OnRecord(s, r.body.id, r.body.outcomeKey)
    ensures Publishes(s, r.body, AppendRefusal(s, r))
  {}

  /** What `commit` answers: it accepts exactly the authentic refusals that are newer or already on record. */
  lemma CommitsExactly(creds: Credentials, s: Snapshot, r: RefusalIntent)
    ensures var newer := s.epoch < r.body.targetEpoch;
            var recorded := OnRecord(s, r.body.id, r.body.outcomeKey);
            match Commit(creds, s, r)
            case Ok(t) => Authentic(creds, r) && if newer then Publishes(s, r.body, t) else recorded && t == s
            case Err(BadAuthentication) => !Authentic(creds, r)
            case Err(NotNewer) => Authentic(creds, r) && !newer && !recorded
            case Err(_) => false
  {
    AuthenticExactly(creds, r);
    RecordExactly(s, r);
    hide Verify, HasRefusal, AppendRefusal, Authentic, Publishes, OnRecord;
  }

  /** What `issue` signs, or why it does not. */
  lemma IssuedRefusalSays(creds: Credentials, s: Snapshot, principal: string, effectId: string, txid: string,
                          target: Option<int>, id: string, issuedAt: int, outcomeKey: Option<string>)
    ensures var formed := Printable(effectId) && (outcomeKey.Some? ==> LowerHex(outcomeKey.value));
            match IssueRefusal(creds, s, principal, effectId, txid, target, id, issuedAt, outcomeKey)
            case Ok(r) =>
              && principal in creds && formed && Authentic(creds, r)
              && r.body.id == id && r.body.principal == principal && r.body.effectId == effectId && r.body.txid == txid
              && r.body.issuedAt == issuedAt
              && (if outcomeKey.Some? then r.body.outcomeKey == outcomeKey.value else r.body.outcomeKey == "")
              && (if target.Some? && s.epoch < target.value then r.body.targetEpoch == target.value
                  else r.body.targetEpoch == s.epoch + 1)
            case Err(UnknownPrincipal) => principal !in creds
            case Err(MalformedIdentity) => principal in creds && !formed
            case Err(_) => false
  {
    SyntaxExactly(effectId);
    if outcomeKey.Some? {
      SyntaxExactly(outcomeKey.value);
    }
    hide CanonicalEffectId, CanonicalOutcomeKey, Printable, LowerHex;
  }

  /** What `issue` signs verifies, can be committed at once, is then on record, and a retry is accepted. */
  lemma IssuedRefusalCommits(creds: Credentials, s: Snapshot, principal: string, effectId: string, txid: string,
                             target: Option<int>, id: string, issuedAt: int, outcomeKey: Option<string>)
    requires IssueRefusal(creds, s, principal, effectId, txid, target, id, issuedAt, outcomeKey).Ok?
    ensures var r := IssueRefusal(creds, s, principal, effectId, txid, target, id, issuedAt, outcomeKey).value;
            var done := Commit(creds, s, r);
            && done.Ok? && done.value.epoch == r.body.targetEpoch > s.epoch
            && HasRefusal(done.value, r)
            && Commit(creds, done.value, r) == Ok(done.value)
  {
    var r := IssueRefusal(creds, s, principal, effectId, txid, target, id, issuedAt, outcomeKey).value;
    if !HasRefusal(s, r) {
      assert r.body in AppendRefusal(s, r).payload.refusals;
    }
  }
}
