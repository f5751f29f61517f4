/** Concrete runs from a fresh deployment that reach the states the crash scenarios start from. */
module Witnesses {
  import opened Base
  import opened Model
  import opened Durable
  import opened Kernel
  import opened Gate
  import opened Protocol
  import opened Progress
  import opened Steps
  import opened CrashScenarios
  import D = Delivery
  import H = JournalHealth
  import J = Journal
  import A = Authorisation
  import Authority
  import Fencing
  import Policy
  import Refusal

  const DEPLOYMENT := Config(Authority.Postgres, map["p" := "k"])

  const GRANTS := map["p" := map["d" := {"WRITE"}]]

  const NOW := SystemState(0, GRANTS, map[])

  const NEXT := SystemState(1, GRANTS, map[])

  /** The authority already fences the outcome at the epoch the first issue leads to. */
  const FENCED := Authority.Ledger(map["aa" := 1], map[], map[])

  ghost function Fresh(): World {
    World(EMPTY_SNAPSHOT.(payload := Payload(NOW.Canonical(), [])), [], FENCED, [], map[], Idle, {}, map[], {}, false)
  }

  const ISSUE := IssueRequest("p", "d", "WRITE", NEXT, "n", "x", Some("e"), Some("aa"))

  lemma Granted()
    ensures NOW.Perms("p", "d") == {"WRITE"} && NEXT.Perms("p", "d") == {"WRITE"}
    ensures forall p, d :: NOW.Perms(p, d) == NEXT.Perms(p, d)
  {}

  lemma Canonicals()
    ensures CanonicalEffectId("e") && CanonicalOutcomeKey("aa")
  {}

  lemma IssueSucceeds()
    ensures Kernel.Issue(Fresh().snap, "b", ISSUE, "t").Ok?
  {
    Granted();
    Canonicals();
    ReviveCanonical(NOW);
    Policy.AcceptedExactly(NOW, NEXT, "p");
    hide Policy.Verdict, Policy.Cyclic, SystemState.Canonical, StateDoc.Revive, CanonicalEffectId, CanonicalOutcomeKey;
  }

  lemma FreshIsInitial()
    ensures Initial(DEPLOYMENT, Fresh())
  {}

  /** The capability that `issue` returns. */
  ghost predicate Minted(cap: Capability) {
    var c := cap.claims;
    && c.txid == "t" && c.nonce == "n" && c.epoch == 1 && c.bootId == "b" && c.principal == "p" && c.domain == "d"
    && c.action == "WRITE" && c.effectClass == "WRITE" && c.paramsDigest == "x" && c.effectId == "e" && c.outcomeKey == "aa"
  }

  /** What a successful issue leaves alone, and what its capability is bound to. */
  lemma IssuedShape(s: Snapshot, bootId: string, q: IssueRequest, txid: string)
    requires Kernel.Issue(s, bootId, q, txid).Ok?
    ensures var (t, cap) := Kernel.Issue(s, bootId, q, txid).value;
            var c := cap.claims;
            && t.epoch == q.proposed.epoch && t.consumed == s.consumed && t.pending == s.pending
            && t.payload.refusals == s.payload.refusals
            && c.txid == txid && c.nonce == q.nonce && c.epoch == q.proposed.epoch && c.bootId == bootId
            && c.principal == q.principal && c.domain == q.domain && c.action == q.action && c.effectClass == q.action
            && c.paramsDigest == q.params && c.effectId == OrEmpty(q.effectId) && c.outcomeKey == OrEmpty(q.outcomeKey)
  {
    hide Policy.Verdict, IssueObstacle, SystemState.Canonical, StateDoc.Revive;
  }

  lemma {:induction false} Issued() returns (run: Run, w: World, cap: Capability)
    ensures At(DEPLOYMENT, run) == Some(w) && w.pc.Idle? && cap in w.issued && Minted(cap)
    ensures w.snap.epoch == 1 && w.snap.consumed == {} && w.snap.pending == [] && w.snap.payload.refusals == []
    ensures w.log == [] && w.ledger == FENCED && !w.torn
  {
    FreshIsInitial();
    IssueSucceeds();
    hide Kernel.Issue, SystemState.Canonical, StateDoc.Revive, Initial, Next;
    var act := Action.Issue("b", ISSUE, "t");
    var issued := Kernel.Issue(Fresh().snap, "b", ISSUE, "t").value;
    IssuedShape(Fresh().snap, "b", ISSUE, "t");
    NextIssues(DEPLOYMENT, Fresh(), "b", ISSUE, "t");
    run, cap := Do(Boot(Fresh()), act), issued.1;
    w := Fresh().(snap := issued.0, issued := Fresh().issued + {cap});
    AtDo(DEPLOYMENT, Boot(Fresh()), act, Fresh());
  }

  function RequestWith(cap: Capability): EffectRequest {
    EffectRequest(cap, "p", "d", "WRITE", "e", "WRITE", "aa")
  }

  lemma ChecksPass(run: Run, w: World, cap: Capability)
    requires At(DEPLOYMENT, run) == Some(w) && cap in w.issued && Minted(cap)
    requires w.snap.epoch == 1 && w.snap.consumed == {} && w.snap.payload.refusals == []
    ensures Genuine(w, cap) && Check(w.snap, "b", RequestWith(cap), Some("x"), true).None?
  {
    Canonicals();
    A.VerifiesExactly(DEPLOYMENT, run, "b", cap, "p", "d", "WRITE", "WRITE");
    hide At, VerifyLocked, CanonicalEffectId, CanonicalOutcomeKey;
  }

  /** A protected call under way: its intent is recorded and nothing is journaled yet. */
  lemma {:induction false} Executing() returns (run: Run, w: World, it: Intent)
    ensures At(DEPLOYMENT, run) == Some(w) && Poised(w, it, []) && StepsLeft(Authority.Postgres, w.ledger, it) == 6
    ensures w.snap.epoch == 1 && w.log == [] && !w.torn
  {
    var r, v, cap := Issued();
    ChecksPass(r, v, cap);
    var q := RequestWith(cap);
    var act := Action.ExecuteProtected("b", q, "x");
    NextRecords(DEPLOYMENT, v, act);
    hide At, Next, Check, Genuine;
    AtDo(DEPLOYMENT, r, act, v);
    run, w, it := Do(r, act), Record(v, q, "x", true), IntentOf(v.snap, q, "x", true);
  }

  /** The two moments at which the crash scenarios begin, in one run. */
  lemma {:induction false} BothMoments() returns (confirmed: Run, dropping: Run, it: Intent)
    ensures At(DEPLOYMENT, confirmed).Some? && At(DEPLOYMENT, dropping).Some?
    ensures var w := At(DEPLOYMENT, confirmed).value;
            w.pc == AppendCommitted(Direct, it) && w.snap.pending == [it] && w.snap.epoch == 1 && !w.torn
            && w.log == [RecordOf(J.Prepared, it)]
    ensures var w := At(DEPLOYMENT, dropping).value;
            w.pc == DropCommitted(Direct, it) && w.snap.pending == [it] && w.snap.epoch == 1 && !w.torn
            && w.log == [RecordOf(J.Prepared, it)] + [RecordOf(J.Committed, it)]
  {
    var run, w;
    run, w, it := Executing();
    UndisturbedRun(DEPLOYMENT, run, w, it, [], 4);
    UndisturbedRun(DEPLOYMENT, run, w, it, [], 5);
    confirmed, dropping := Ticks(run, 4), Ticks(run, 5);
    hide At, RecordOf, Authority.Serve, CommitOutside, Ticks;
  }

  /** A refusal of another effect, two epochs on, signed by the one principal. */
  const REFUSAL := Refusal.RefusalIntent(LATER, Refusal.Signature("k", LATER))

  const LATER := RefusalRecord("r", "p", "e", "t", 2, 0, "")

  lemma RefusalVerifies()
    ensures Refusal.Verify(DEPLOYMENT.creds, REFUSAL)
  {
    Canonicals();
  }

  /** A journal that is never accepted again is reached from a fresh deployment. */
  lemma {:induction false} SpoiledJournalIsReachable() returns (late: Run)
    ensures At(DEPLOYMENT, late).Some? && !J.Acceptable(At(DEPLOYMENT, late).value.log)
  {
    var confirmed, dropping, it := BothMoments();
    RefusalVerifies();
    H.HealthyUnlessTorn(DEPLOYMENT, dropping);
    hide At, J.Acceptable, Refusal.Verify, RecordOf;
    late := CrashThenRefusalSpoils(DEPLOYMENT, dropping, REFUSAL, map[]);
  }

  /** So is a REFUSED line for an intent whose effect is held. */
  lemma {:induction false} RefusedWithEffectIsReachable() returns (late: Run, it: Intent)
    ensures At(DEPLOYMENT, late).Some?
    ensures var w := At(DEPLOYMENT, late).value;
            D.Logged(w.log, J.Refused, it.key) && D.Held(Authority.Postgres, w.ledger, w.applied, it)
  {
    var confirmed, dropping;
    confirmed, dropping, it := BothMoments();
    RefusalVerifies();
    H.HealthyUnlessTorn(DEPLOYMENT, confirmed);
    hide At, J.Acceptable, Refusal.Verify, RecordOf, D.Held, D.Logged;
    late := RefusedDespiteEffect(DEPLOYMENT, confirmed, REFUSAL, map[]);
  }

  const STOP := RefusalRecord("s", "p", "e", "t", 1, 0, "bb")

  const OTHER := RefusalRecord("o", "p", "f", "t", 1, 0, "")

  function StopRefusal(): Refusal.RefusalIntent {
    Refusal.RefusalIntent(STOP, Refusal.Signature("k", STOP))
  }

  function OtherRefusal(): Refusal.RefusalIntent {
    Refusal.RefusalIntent(OTHER, Refusal.Signature("k", OTHER))
  }

  lemma RefusalsVerify()
    ensures Refusal.Verify(DEPLOYMENT.creds, StopRefusal()) && Refusal.Verify(DEPLOYMENT.creds, OtherRefusal())
  {
    assert CanonicalEffectId("e") && CanonicalEffectId("f") && CanonicalOutcomeKey("bb");
    hide CanonicalEffectId, CanonicalOutcomeKey;
  }

  lemma StopIsPublishable()
    ensures Publishable(DEPLOYMENT, Fresh(), StopRefusal())
  {
    RefusalsVerify();
    hide SystemState.Canonical, Refusal.Verify;
  }

  /** A protected refusal that no later run can complete is reached from a fresh deployment. */
  lemma {:induction false} StrandedIsReachable() returns (late: Run)
    ensures At(DEPLOYMENT, late).Some? && Fencing.Stranded(At(DEPLOYMENT, late).value, "bb")
    ensures Fencing.FencedRefusalsOnly(late)
  {
    FreshIsInitial();
    StopIsPublishable();
    RefusalsVerify();
    late := Interrupted(Boot(Fresh()), StopRefusal(), OtherRefusal());
    assert Fencing.FencedRefusalsOnly(late);
    hide Publishable, Initial, Next, SystemState.Canonical, Refusal.Verify, Fencing.Stranded;
    InterruptionStrands(DEPLOYMENT, Boot(Fresh()), StopRefusal(), OtherRefusal());
  }
}
