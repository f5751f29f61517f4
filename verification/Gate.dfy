/** The checks of the effect gate and the snapshots it writes (effect_gate.py). */
module Gate {
  import opened Base
  import opened Durable
  import opened Kernel

  datatype EffectRequest = EffectRequest(
    cap: Capability, principal: string, domain: string, action: string, effectId: string,
    effectClass: string, outcomeKey: string)

  datatype Denied =
    | UndeclaredClass
    | ClassMismatch
    | InvalidEffectId
    | EffectIdMismatch
    | OutcomeRequired
    | InvalidOutcome
    | OutcomeMismatch
    | ParameterSubstitution
    | EffectRefused
    | InvalidCapability
    | Replay

  /** `_is_refused`: by effect identity, or by outcome where one is given. */
  predicate IsRefused(s: Snapshot, effectId: string, outcomeKey: string) {
    || !CanonicalEffectId(effectId)
    || (outcomeKey != "" && !CanonicalOutcomeKey(outcomeKey))
    || exists r | r in s.payload.refusals ::
         r.effectId == effectId || (outcomeKey != "" && r.outcomeKey == outcomeKey)
  }

  /** `_validate_common`; `params` is absent where the caller passed none. */
  function ValidateCommon(q: EffectRequest, params: Option<string>, requireOutcome: bool): Option<Denied> {
    var c := q.cap.claims;
    if !EffectClass(q.effectClass) then Some(UndeclaredClass)
    else if q.effectClass != q.action then Some(ClassMismatch)
    else if !CanonicalEffectId(q.effectId) then Some(InvalidEffectId)
    else if c.effectId != "" && q.effectId != c.effectId then Some(EffectIdMismatch)
    else if requireOutcome && (c.outcomeKey == "" || q.outcomeKey == "") then Some(OutcomeRequired)
    else if requireOutcome && !(CanonicalOutcomeKey(c.outcomeKey) && CanonicalOutcomeKey(q.outcomeKey)) then
      Some(InvalidOutcome)
    else if requireOutcome && q.outcomeKey != c.outcomeKey then Some(OutcomeMismatch)
    else if params.Some? && params.value != c.paramsDigest then Some(ParameterSubstitution)
    else None
  }

  /** `f"{txid}:{effect_id}"`. */
  function EffectKey(q: EffectRequest): string {
    q.cap.claims.txid + ":" + q.effectId
  }

  /** The checks made under the store lock, after `_validate_common`. */
  function Admit(s: Snapshot, bootId: string, q: EffectRequest, outcomeKey: string): Option<Denied> {
    var c := q.cap.claims;
    if IsRefused(s, q.effectId, outcomeKey) then Some(EffectRefused)
    else if !VerifyLocked(s, bootId, q.cap, q.principal, q.domain, q.action, q.effectClass) then
      Some(InvalidCapability)
    else if c.nonce in s.consumed || c.txid in s.consumed || EffectKey(q) in s.consumed then Some(Replay)
    else None
  }

  function Check(s: Snapshot, bootId: string, q: EffectRequest, params: Option<string>,
                 protected: bool): Option<Denied> {
    match ValidateCommon(q, params, protected)
    case Some(d) => Some(d)
    case None => Admit(s, bootId, q, if protected then q.cap.claims.outcomeKey else "")
  }

  // ----- What the checks amount to, spelled out -----

  /** A recorded refusal names the effect, or the outcome where one is given. */
  ghost predicate NamedIn(s: Snapshot, effectId: string, outcomeKey: string) {
    exists i :: 0 <= i < |s.payload.refusals|
                && (|| s.payload.refusals[i].effectId == effectId
                    || (outcomeKey != "" && s.payload.refusals[i].outcomeKey == outcomeKey))
  }

  lemma RefusedExactly(s: Snapshot, effectId: string, outcomeKey: string)
    ensures IsRefused(s, effectId, outcomeKey) <==>
      !Printable(effectId) || (outcomeKey != "" && !LowerHex(outcomeKey)) || NamedIn(s, effectId, outcomeKey)
  {
    SyntaxExactly(effectId);
    SyntaxExactly(outcomeKey);
    hide CanonicalEffectId, CanonicalOutcomeKey, Printable, LowerHex;
    if r :| r in s.payload.refusals && (r.effectId == effectId || (outcomeKey != "" && r.outcomeKey == outcomeKey)) {
      var i :| 0 <= i < |s.payload.refusals| && s.payload.refusals[i] == r;
    }
  }

  /** What the gate answers: admission, or the denial of the first check that fails. */
  lemma CheckAnswers(s: Snapshot, bootId: string, q: EffectRequest, given: Option<string>, protected: bool)
    ensures var c := q.cap.claims;
            var declared := q.effectClass in ["READ", "WRITE", "NETWORK", "PROCESS"];
            var matched := declared && q.effectClass == q.action;
            var formed := matched && Printable(q.effectId);
            var bound := formed && (c.effectId == "" || c.effectId == q.effectId);
            var named := bound && (protected ==> c.outcomeKey != "" && q.outcomeKey != "");
            var hex := named && (protected ==> LowerHex(c.outcomeKey) && LowerHex(q.outcomeKey));
            var same := hex && (protected ==> q.outcomeKey == c.outcomeKey);
            var asked := same && (given.Some? ==> given.value == c.paramsDigest);
            var free := asked && !NamedIn(s, q.effectId, if protected then c.outcomeKey else "");
            var valid := free && VerifyLocked(s, bootId, q.cap, q.principal, q.domain, q.action, q.effectClass);
            var unspent := {c.nonce, c.txid, c.txid + ":" + q.effectId} !! s.consumed;
            match Check(s, bootId, q, given, protected)
            case Some(UndeclaredClass) => !declared
            case Some(ClassMismatch) => declared && !matched
            case Some(InvalidEffectId) => matched && !formed
            case Some(EffectIdMismatch) => formed && !bound
            case Some(OutcomeRequired) => bound && !named
            case Some(InvalidOutcome) => named && !hex
            case Some(OutcomeMismatch) => hex && !same
            case Some(ParameterSubstitution) => same && !asked
            case Some(EffectRefused) => asked && !free
            case Some(InvalidCapability) => free && !valid
            case Some(Replay) => valid && !unspent
            case None => valid && unspent
  {
    var c := q.cap.claims;
    SyntaxExactly(q.effectClass);
    SyntaxExactly(q.effectId);
    SyntaxExactly(c.outcomeKey);
    SyntaxExactly(q.outcomeKey);
    RefusedExactly(s, q.effectId, if protected then c.outcomeKey else "");
    hide CanonicalEffectId, CanonicalOutcomeKey, Printable, LowerHex, NamedIn, IsRefused, VerifyLocked, EffectClass;
  }

  /** The intent that a call records. */
  lemma IntentSays(s: Snapshot, q: EffectRequest, params: string, protected: bool)
    ensures var (it, c) := (IntentOf(s, q, params, protected), q.cap.claims);
            && it.key == it.idemKey == c.txid + ":" + q.effectId
            && it.txid == c.txid && it.effectId == q.effectId && it.effectClass == q.effectClass
            && it.paramsDigest == params && it.epoch == s.epoch
            && (if protected then it.outcomeKey == c.outcomeKey else it.outcomeKey == "")
  {}

  /** Spending uses up nonce, transaction and key, and changes nothing else but what is pending. */
  lemma SpendsExactly(s: Snapshot, q: EffectRequest, pending: seq<Intent>)
    ensures var (t, key) := (Spend(s, q, pending), q.cap.claims.txid + ":" + q.effectId);
            && t.consumed == s.consumed + {q.cap.claims.nonce, q.cap.claims.txid, key}
            && t.effects == s.effects + {key} && t.pending == pending && t.sequence == s.sequence + 1
            && t.epoch == s.epoch && t.nonces == s.nonces && t.commits == s.commits && t.payload == s.payload
            && t.bootId == s.bootId
  {}

  /** Settling an intent takes out just it. */
  lemma SettlesExactly(s: Snapshot, before: seq<Intent>, it: Intent, after: seq<Intent>)
    requires s.pending == before + [it] + after && DistinctKeys(s.pending)
    ensures Settle(s, it.key) == s.(sequence := s.sequence + 1, pending := before + after)
  {
    DroppedOne(before, it, after);
  }

  function IntentOf(s: Snapshot, q: EffectRequest, params: string, protected: bool): Intent {
    Intent(EffectKey(q), q.cap.claims.txid, q.effectId, if protected then q.cap.claims.outcomeKey else "",
           EffectKey(q), q.effectClass, params, s.epoch)
  }

  /** Spend the capability; the intents become `pending`. */
  function Spend(s: Snapshot, q: EffectRequest, pending: seq<Intent>): Snapshot {
    s.(sequence := s.sequence + 1,
       consumed := s.consumed + {q.cap.claims.nonce, q.cap.claims.txid, EffectKey(q)},
       effects := s.effects + {EffectKey(q)},
       pending := pending)
  }

  /** Take a finished intent out of the snapshot. */
  function Settle(s: Snapshot, key: string): Snapshot {
    s.(sequence := s.sequence + 1, pending := Dropped(s.pending, key))
  }
}
