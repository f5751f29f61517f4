/**
 Authorisation at the moment of use: the gate never rereads permissions, yet whatever it calls out for is
 granted by the durable state, because every writer treats epoch and payload in a fixed way.
 */
module Authorisation {
  import opened Base
  import opened Model
  import opened Policy
  import opened Durable
  import opened Kernel
  import opened Gate
  import opened Protocol
  import Refusal

  /** The live durable authority state. */
  function Live(s: Snapshot): SystemState {
    s.payload.state.Revive()
  }

  ghost predicate WellNamed(c: Claims) {
    && (c.effectId == "" || CanonicalEffectId(c.effectId))
    && (c.outcomeKey == "" || CanonicalOutcomeKey(c.outcomeKey))
  }

  /** An issued capability is on record, and the one of the current epoch describes the live state. */
  ghost predicate Endorsed(s: Snapshot, cap: Capability) {
    var c := cap.claims;
    && cap.mac == Mac(c)
    && WellNamed(c)
    && c.effectClass == c.action
    && c.epoch <= s.epoch
    && EntryOf(c) in s.commits && c.nonce in s.nonces
    && (c.epoch == s.epoch ==> c.stateDigest == s.payload.state && c.action in Live(s).Perms(c.principal, c.domain))
  }

  /** A publication in progress either is already on record locally or targets a later epoch. */
  ghost predicate Ahead(w: World) {
    match w.pc
    case PubFence(r, known) => known || w.snap.epoch < r.body.targetEpoch
    case PubAsk(r, known) => known || w.snap.epoch < r.body.targetEpoch
    case PubRefuse(r, known) => known || w.snap.epoch < r.body.targetEpoch
    case PubConfirm(r, known) => known || w.snap.epoch < r.body.targetEpoch
    case PubCompare(r, known) => known || w.snap.epoch < r.body.targetEpoch
    case PubWrite(r) => w.snap.epoch < r.body.targetEpoch
    case _ => true
  }

  /** Every issued capability is endorsed, and no two belong to one epoch or bear one nonce. */
  ghost predicate Register(s: Snapshot, issued: set<Capability>) {
    && s.payload.state.epoch == s.epoch
    && (forall cap | cap in issued :: Endorsed(s, cap))
    && (forall a, b | a in issued && b in issued && a.claims.epoch == b.claims.epoch :: a == b)
    && (forall a, b | a in issued && b in issued && a.claims.nonce == b.claims.nonce :: a == b)
  }

  ghost predicate Inv(w: World) {
    Register(w.snap, w.issued) && Ahead(w)
  }

  /** A write that touches neither epoch, nonces, commits nor payload. */
  predicate Bookkeeping(s: Snapshot, t: Snapshot) {
    s.epoch == t.epoch && s.nonces == t.nonces && s.commits == t.commits && s.payload == t.payload
  }

  /** The three ways a step may treat the snapshot. */
  ghost predicate IssueStep(w: World, v: World, bootId: string, q: IssueRequest, txid: string) {
    var r := Kernel.Issue(w.snap, bootId, q, txid);
    r.Ok? && v.snap == r.value.0 && v.issued == w.issued + {r.value.1} && v.pc == w.pc
  }

  ghost predicate RefusalStep(w: World, v: World, r: Refusal.RefusalIntent) {
    w.snap.epoch < r.body.targetEpoch && v.snap == Refusal.AppendRefusal(w.snap, r)
    && v.issued == w.issued && v.pc.Idle?
  }

  ghost predicate QuietStep(w: World, v: World) {
    Bookkeeping(w.snap, v.snap) && v.issued == w.issued
  }

  lemma PublishTick(c: Config, w: World)
    requires Publishing(w.pc) && Ahead(w)
    ensures var v := TickPublish(c, w);
            Ahead(v) && (QuietStep(w, v) || (w.pc.PubWrite? && RefusalStep(w, v, w.pc.refusal)))
  {
    hide Refusal.AppendRefusal, Authority.Serve;
  }

  lemma Classify(c: Config, w: World, act: Action)
    requires Enabled(w, act) && Ahead(w)
    ensures var v := Next(c, w, act);
            && Ahead(v)
            && (|| QuietStep(w, v)
                || (act.Issue? && IssueStep(w, v, act.bootId, act.issue, act.txid))
                || (act.CommitRefusal? && RefusalStep(w, v, act.refusal))
                || (act.Tick? && w.pc.PubWrite? && RefusalStep(w, v, w.pc.refusal)))
  {
    hide Kernel.Issue, Check, TickIntent, TickPublish, Refusal.Verify, Refusal.HasRefusal, Refusal.AppendRefusal;
    if act.Tick? {
      if Publishing(w.pc) {
        PublishTick(c, w);
      } else if Working(w.pc) {
        IntentTickFrame(c, w);
      }
    }
  }

  /** Everything the capability says, field by field. */
  ghost predicate Says(s: Snapshot, bootId: string, q: IssueRequest, txid: string, c: Claims) {
    && c.txid == txid && c.sequence == s.sequence + 1 && c.nonce == q.nonce && c.bootId == bootId
    && c.epoch == Live(s).epoch + 1 == q.proposed.epoch
    && c.principal == q.principal && c.domain == q.domain && c.action == q.action && c.effectClass == q.action
    && c.stateDigest == q.proposed.Canonical() && c.paramsDigest == q.params
    && (if q.effectId.Some? then c.effectId == q.effectId.value else c.effectId == "")
    && (if q.outcomeKey.Some? then c.outcomeKey == q.outcomeKey.value else c.outcomeKey == "")
    && c.mutation == if exists p, d :: q.proposed.Perms(p, d) < Live(s).Perms(p, d)
                     then PermissionContraction else NoMutation
  }

  /** The commit entry repeats the capability. */
  ghost predicate Repeats(e: CommitEntry, c: Claims) {
    && e.txid == c.txid && e.sequence == c.sequence && e.nonce == c.nonce && e.epoch == c.epoch
    && e.principal == c.principal && e.domain == c.domain && e.action == c.action && e.effectClass == c.effectClass
    && e.mutation == c.mutation && e.stateDigest == c.stateDigest && e.paramsDigest == c.paramsDigest
    && e.effectId == c.effectId && e.outcomeKey == c.outcomeKey
  }

  /** The snapshot that `issue` writes, field by field. */
  ghost predicate Installs(s: Snapshot, bootId: string, q: IssueRequest, c: Claims, t: Snapshot) {
    && t.epoch == q.proposed.epoch && t.sequence == s.sequence + 1 && t.bootId == bootId
    && t.nonces == s.nonces + {q.nonce} && t.consumed == s.consumed && t.effects == s.effects && t.pending == s.pending
    && t.payload.state == q.proposed.Canonical() && t.payload.refusals == s.payload.refusals
    && |t.commits| == |s.commits| + 1 && s.commits <= t.commits && Repeats(t.commits[|s.commits|], c)
  }

  /** What `issue` returns and writes. */
  lemma IssueWrites(s: Snapshot, bootId: string, q: IssueRequest, txid: string)
    requires Kernel.Issue(s, bootId, q, txid).Ok?
    ensures var (t, cap) := Kernel.Issue(s, bootId, q, txid).value;
            && Says(s, bootId, q, txid, cap.claims) && cap.mac.over == cap.claims
            && Installs(s, bootId, q, cap.claims, t)
  {
    AcceptedReports(Live(s), q.proposed, q.principal);
    AcceptedExactly(Live(s), q.proposed, q.principal);
    hide Verdict, Attenuates, Cyclic, SamePermissions, IssueObstacle, SystemState.Canonical, SystemState.Perms;
    hide StateDoc.Revive;
  }

  lemma IssueFacts(s: Snapshot, bootId: string, q: IssueRequest, txid: string)
    requires Kernel.Issue(s, bootId, q, txid).Ok?
    ensures var (t, cap) := Kernel.Issue(s, bootId, q, txid).value;
            && t == Issued(s, bootId, q, cap.claims)
            && cap.mac == Mac(cap.claims) && WellNamed(cap.claims)
            && cap.claims.action == cap.claims.effectClass == q.action
            && cap.claims.principal == q.principal && cap.claims.domain == q.domain
            && cap.claims.epoch == t.epoch == s.payload.state.epoch + 1
            && cap.claims.stateDigest == t.payload.state
            && Live(t) == q.proposed
            && q.action in q.proposed.Perms(q.principal, q.domain)
            && Attenuates(Live(s), Live(t), q.principal)
            && t.payload.refusals == s.payload.refusals && q.nonce !in s.nonces
  {
    hide Attenuates, Cyclic, SamePermissions, CanonicalEffectId, CanonicalOutcomeKey;
    hide Verdict;
    AcceptedExactly(Live(s), q.proposed, q.principal);
    ReviveCanonical(q.proposed);
  }

  lemma StillEndorsed(s: Snapshot, t: Snapshot, cap: Capability)
    requires Endorsed(s, cap) && s.epoch < t.epoch
    requires s.commits <= t.commits && s.nonces <= t.nonces
    ensures Endorsed(t, cap)
  {}

  /** What `issue` returns is endorsed by the snapshot it writes, and so is everything issued before. */
  lemma IssueEndorses(s: Snapshot, bootId: string, q: IssueRequest, txid: string)
    requires Kernel.Issue(s, bootId, q, txid).Ok?
    ensures var (t, cap) := Kernel.Issue(s, bootId, q, txid).value;
            Endorsed(t, cap) && s.commits <= t.commits && s.nonces <= t.nonces
            && cap.claims.nonce == q.nonce && q.nonce !in s.nonces
  {
    IssueFacts(s, bootId, q, txid);
    IssueWrites(s, bootId, q, txid);
    hide Kernel.Issue, Attenuates, WellNamed, Live, Says, Repeats;
    var (t, cap) := Kernel.Issue(s, bootId, q, txid).value;
    assert t.commits[|s.commits|] == EntryOf(cap.claims);
  }

  lemma MintedIsNew(issued: set<Capability>, t: Snapshot, minted: Capability)
    requires forall cap | cap in issued :: cap.claims.epoch < t.epoch
    requires forall a, b | a in issued && b in issued && a.claims.epoch == b.claims.epoch :: a == b
    requires minted.claims.epoch == t.epoch
    ensures var more := issued + {minted};
            forall a, b | a in more && b in more && a.claims.epoch == b.claims.epoch :: a == b
  {}

  lemma NonceIsNew(s: Snapshot, issued: set<Capability>, minted: Capability)
    requires forall cap | cap in issued :: cap.claims.nonce in s.nonces
    requires forall a, b | a in issued && b in issued && a.claims.nonce == b.claims.nonce :: a == b
    requires minted.claims.nonce !in s.nonces
    ensures var more := issued + {minted};
            forall a, b | a in more && b in more && a.claims.nonce == b.claims.nonce :: a == b
  {}

  lemma IssuedBefore(s: Snapshot, issued: set<Capability>, t: Snapshot)
    requires Register(s, issued) && s.epoch < t.epoch && s.commits <= t.commits && s.nonces <= t.nonces
    ensures forall cap | cap in issued :: Endorsed(t, cap) && cap.claims.epoch < t.epoch && cap.claims.nonce in s.nonces
  {
    forall cap | cap in issued ensures Endorsed(t, cap) && cap.claims.epoch < t.epoch && cap.claims.nonce in s.nonces {
      assert Endorsed(s, cap);
      StillEndorsed(s, t, cap);
    }
  }

  lemma RegisterGrows(s: Snapshot, issued: set<Capability>, t: Snapshot, minted: Capability)
    requires Register(s, issued) && Endorsed(t, minted) && s.commits <= t.commits && s.nonces <= t.nonces
    requires minted.claims.nonce !in s.nonces
    requires minted.claims.epoch == t.epoch == t.payload.state.epoch == s.epoch + 1
    ensures Register(t, issued + {minted})
  {
    IssuedBefore(s, issued, t);
    hide Endorsed;
    MintedIsNew(issued, t, minted);
    NonceIsNew(s, issued, minted);
  }

  lemma IssueKeeps(w: World, v: World, bootId: string, q: IssueRequest, txid: string)
    requires Inv(w) && IssueStep(w, v, bootId, q, txid) && Ahead(v)
    ensures Inv(v)
  {
    IssueFacts(w.snap, bootId, q, txid);
    IssueEndorses(w.snap, bootId, q, txid);
    hide Kernel.Issue, WellNamed, Attenuates, Live, Endorsed;
    RegisterGrows(w.snap, w.issued, v.snap, Kernel.Issue(w.snap, bootId, q, txid).value.1);
  }

  lemma RefusalKeeps(w: World, v: World, r: Refusal.RefusalIntent)
    requires Inv(w) && RefusalStep(w, v, r)
    ensures Inv(v)
    ensures forall cap | cap in v.issued :: cap.claims.epoch < v.snap.epoch
  {
    forall cap | cap in v.issued ensures Endorsed(v.snap, cap) && cap.claims.epoch < v.snap.epoch {
      assert Endorsed(w.snap, cap);
    }
  }

  lemma QuietKeeps(w: World, v: World)
    requires Inv(w) && QuietStep(w, v) && Ahead(v)
    ensures Inv(v)
  {
    forall cap | cap in v.issued ensures Endorsed(v.snap, cap) {
      assert Endorsed(w.snap, cap);
    }
  }

  lemma StepKeeps(c: Config, w: World, act: Action)
    requires Inv(w) && Enabled(w, act)
    ensures Inv(Next(c, w, act))
  {
    hide Next, QuietStep, IssueStep, RefusalStep, Endorsed;
    var v := Next(c, w, act);
    Classify(c, w, act);
    if QuietStep(w, v) {
      QuietKeeps(w, v);
    } else if act.Issue? {
      IssueKeeps(w, v, act.bootId, act.issue, act.txid);
    } else if act.CommitRefusal? {
      RefusalKeeps(w, v, act.refusal);
    } else {
      RefusalKeeps(w, v, w.pc.refusal);
    }
  }

  lemma {:induction false} ReachableInv(c: Config, run: Run)
    requires At(c, run).Some?
    ensures Inv(At(c, run).value)
  {
    if run.Do? {
      ReachableInv(c, run.prior);
      StepKeeps(c, At(c, run.prior).value, run.act);
    }
  }

  // ----- Nonces -----

  /** No two issued capabilities bear one nonce, and none is ever issued again under a nonce already used. */
  lemma NoncesNeverRepeat(c: Config, run: Run, cap: Capability, bootId: string, q: IssueRequest, txid: string)
    requires At(c, run).Some? && cap in At(c, run).value.issued
    ensures var w := At(c, run).value;
            && cap.claims.nonce in w.snap.nonces
            && (forall other | other in w.issued && other.claims.nonce == cap.claims.nonce :: other == cap)
            && (q.nonce == cap.claims.nonce ==> Kernel.Issue(w.snap, bootId, q, txid).Err?)
  {
    ReachableInv(c, run);
    var w := At(c, run).value;
    assert Endorsed(w.snap, cap);
    if Kernel.Issue(w.snap, bootId, q, txid).Ok? {
      IssueFacts(w.snap, bootId, q, txid);
    }
    hide At, Kernel.Issue, Ahead;
  }

  // ----- Which capabilities verify -----

  /**
   In every reachable state a capability (forged or not) verifies for a request exactly when it was issued
   for that request in the current epoch by this boot of the kernel, with a parameter digest.
   */
  lemma VerifiesExactly(c: Config, run: Run, bootId: string, cap: Capability, principal: string, domain: string,
                        action: string, effectClass: string)
    requires At(c, run).Some? && Genuine(At(c, run).value, cap)
    ensures var w := At(c, run).value;
            VerifyLocked(w.snap, bootId, cap, principal, domain, action, effectClass) <==>
              && cap in w.issued && cap.claims.epoch == w.snap.epoch
              && cap.claims.bootId == bootId && cap.claims.paramsDigest != ""
              && cap.claims.principal == principal && cap.claims.domain == domain
              && cap.claims.action == action && cap.claims.effectClass == effectClass
  {
    ReachableInv(c, run);
    var w := At(c, run).value;
    if cap in w.issued {
      assert Endorsed(w.snap, cap);
      RecordedEntry(w.snap, cap.claims);
    }
  }

  lemma RecordedEntry(s: Snapshot, c: Claims)
    requires EntryOf(c) in s.commits
    ensures Recorded(s, c)
  {
    var r := EntryOf(c);
    assert r in s.commits && r.txid == c.txid;
  }

  /** At most one capability verifies in any reachable state, whatever is asked of it. */
  lemma AtMostOneVerifies(c: Config, run: Run, bootA: string, a: Capability, bootB: string, b: Capability)
    requires At(c, run).Some? && Genuine(At(c, run).value, a) && Genuine(At(c, run).value, b)
    requires var s := At(c, run).value.snap;
             && VerifyLocked(s, bootA, a, a.claims.principal, a.claims.domain, a.claims.action, a.claims.effectClass)
             && VerifyLocked(s, bootB, b, b.claims.principal, b.claims.domain, b.claims.action, b.claims.effectClass)
    ensures a == b
  {
    hide VerifyLocked, Genuine;
    VerifiesExactly(c, run, bootA, a, a.claims.principal, a.claims.domain, a.claims.action, a.claims.effectClass);
    VerifiesExactly(c, run, bootB, b, b.claims.principal, b.claims.domain, b.claims.action, b.claims.effectClass);
    ReachableInv(c, run);
  }

  /** Every issued capability belongs to a past epoch. */
  ghost predicate AllStale(w: World) {
    forall cap | cap in w.issued :: cap.claims.epoch < w.snap.epoch
  }

  /** Between `early` and `late` no issue took place. */
  ghost predicate NoIssue(late: Run, early: Run) {
    late == early || (late.Do? && !late.act.Issue? && NoIssue(late.prior, early))
  }

  /** A refusal that was published leaves no usable capability, and none becomes usable until the next issue. */
  lemma {:induction false} RefusalDisarms(c: Config, refused: Run, late: Run, bootId: string, cap: Capability)
    requires At(c, late).Some? && refused.Do? && NoIssue(late, refused)
    requires At(c, refused).Some?
    requires At(c, refused.prior).value.snap.payload.refusals != At(c, refused).value.snap.payload.refusals
    requires Genuine(At(c, late).value, cap)
    ensures !VerifyLocked(At(c, late).value.snap, bootId, cap, cap.claims.principal, cap.claims.domain,
                          cap.claims.action, cap.claims.effectClass)
  {
    StaleUntilIssue(c, refused, late);
    VerifiesExactly(c, late, bootId, cap, cap.claims.principal, cap.claims.domain, cap.claims.action, cap.claims.effectClass);
  }

  lemma {:induction false} StaleUntilIssue(c: Config, refused: Run, late: Run)
    requires At(c, late).Some? && refused.Do? && NoIssue(late, refused)
    requires At(c, refused).Some?
    requires At(c, refused.prior).value.snap.payload.refusals != At(c, refused).value.snap.payload.refusals
    ensures AllStale(At(c, late).value)
  {
    hide Next;
    var w := At(c, late.prior).value;
    var v := At(c, late).value;
    ReachableInv(c, late.prior);
    Classify(c, w, late.act);
    if late == refused {
      if late.act.Issue? && IssueStep(w, v, late.act.bootId, late.act.issue, late.act.txid) {
        IssueFacts(w.snap, late.act.bootId, late.act.issue, late.act.txid);
      } else if late.act.CommitRefusal? && RefusalStep(w, v, late.act.refusal) {
        RefusalKeeps(w, v, late.act.refusal);
      } else {
        RefusalKeeps(w, v, w.pc.refusal);
      }
    } else {
      StaleUntilIssue(c, refused, late.prior);
      if !QuietStep(w, v) {
        RefusalKeeps(w, v, if late.act.CommitRefusal? then late.act.refusal else w.pc.refusal);
      }
    }
  }

  // ----- Permissions over whole runs -----

  /** Governance is constant and no pair ever gains a permission. */
  ghost predicate Shrinks(a: SystemState, b: SystemState) {
    b.governance == a.governance && forall p, d :: b.Perms(p, d) <= a.Perms(p, d)
  }

  /** One step changes permissions only if it is an issue, and then only the acting principal's. */
  lemma StepAttenuates(c: Config, w: World, act: Action)
    requires Inv(w) && Enabled(w, act)
    ensures var v := Next(c, w, act);
            && Shrinks(Live(w.snap), Live(v.snap))
            && (!act.Issue? ==> Live(v.snap).permissions == Live(w.snap).permissions)
            && (act.Issue? ==>
                  forall p, d | p != act.issue.principal :: Live(v.snap).Perms(p, d) == Live(w.snap).Perms(p, d))
  {
    hide Next;
    var v := Next(c, w, act);
    Classify(c, w, act);
    if act.Issue? && IssueStep(w, v, act.bootId, act.issue, act.txid) {
      IssueFacts(w.snap, act.bootId, act.issue, act.txid);
    }
  }

  /** Over every run permissions only shrink and governance never changes. */
  lemma {:induction false} AttenuationOnly(c: Config, early: Run, late: Run)
    requires Extends(late, early) && At(c, late).Some? && At(c, early).Some?
    ensures Shrinks(Live(At(c, early).value.snap), Live(At(c, late).value.snap))
  {
    if late != early {
      AttenuationOnly(c, early, late.prior);
      ReachableInv(c, late.prior);
      StepAttenuates(c, At(c, late.prior).value, late.act);
    }
  }
}
