/** The outcome fence over whole runs: local operations, foreign clients of the authority, and crashes. */
module Fencing {
  import opened Base
  import opened Durable
  import opened Kernel
  import opened Gate
  import opened Protocol
  import opened Authority
  import A = Authorisation
  import R = Refusal

  // ----- Nothing after a refusal -----

  /** Whoever acts, the authority's ledger changes only by serving one request atomically. */
  lemma LedgerStep(c: Config, w: World, act: Action)
    requires Enabled(w, act)
    ensures var v := Next(c, w, act);
            v.ledger == w.ledger || exists q :: v.ledger == Serve(c.kind, w.ledger, q).0
  {
    hide Serve, Kernel.Issue, Check, R.Commit, R.Verify, R.HasRefusal, TickIntent, TickPublish, Journal.Fold;
    if act.Tick? {
      if Publishing(w.pc) {
        PublishLedger(c, w);
      } else if Working(w.pc) {
        IntentLedger(c, w);
      }
    }
  }

  lemma PublishLedger(c: Config, w: World)
    requires Publishing(w.pc)
    ensures var v := TickPublish(c, w);
            v.ledger == w.ledger || exists q :: v.ledger == Serve(c.kind, w.ledger, q).0
  {
    hide Serve, R.AppendRefusal;
    if w.pc.PubRefuse? {
      var b := w.pc.refusal.body;
      assert TickPublish(c, w).ledger == Serve(c.kind, w.ledger, Refuse(b.outcomeKey, b.targetEpoch, b.id)).0;
    }
  }

  lemma IntentLedger(c: Config, w: World)
    requires Working(w.pc)
    ensures var v := TickIntent(c, w);
            v.ledger == w.ledger || exists q :: v.ledger == Serve(c.kind, w.ledger, q).0
  {
    IntentTickFrame(c, w);
    hide IntentFrame, Serve, Prepare, JournalCommitted, FinishCommitted, Examined, TakeNext, Apply;
    if w.pc.CallCommit? {
      var it := w.pc.it;
      assert TickIntent(c, w).ledger == Serve(c.kind, w.ledger, Commit(it.outcomeKey, it.epoch, it.idemKey)).0;
    }
  }

  lemma StepEvolves(c: Config, w: World, act: Action)
    requires Enabled(w, act) && Kept(c.kind, w.ledger)
    ensures var v := Next(c, w, act);
            Kept(c.kind, v.ledger) && Evolves(w.ledger, v.ledger) && NothingAfterRefusal(w.ledger, v.ledger)
  {
    hide Next, Serve;
    var v := Next(c, w, act);
    LedgerStep(c, w, act);
    if v.ledger == w.ledger {
      EvolvesReflexive(w.ledger);
    } else {
      var q :| v.ledger == Serve(c.kind, w.ledger, q).0;
      ServeKeeps(c.kind, w.ledger, q);
      ServeEvolves(c.kind, w.ledger, q);
      ServeRespectsRefusals(c.kind, w.ledger, q);
    }
  }

  lemma {:induction false} LedgerKept(c: Config, run: Run)
    requires At(c, run).Some?
    ensures Kept(c.kind, At(c, run).value.ledger)
  {
    hide Next, Kept;
    if run.Do? {
      LedgerKept(c, run.prior);
      StepEvolves(c, At(c, run.prior).value, run.act);
    }
  }

  /**
   Over every run the authority's refusals and effects are permanent, fences only rise, a refused outcome's
   fence stays frozen, and no effect is added for an outcome that was already refused.
   */
  lemma {:induction false} LedgerEvolves(c: Config, early: Run, late: Run)
    requires Extends(late, early) && At(c, late).Some? && At(c, early).Some?
    ensures Evolves(At(c, early).value.ledger, At(c, late).value.ledger)
    ensures NothingAfterRefusal(At(c, early).value.ledger, At(c, late).value.ledger)
  {
    hide Next, Evolves, NothingAfterRefusal, Kept;
    if late == early {
      EvolvesReflexive(At(c, early).value.ledger);
    } else {
      LedgerEvolves(c, early, late.prior);
      LedgerKept(c, late.prior);
      StepEvolves(c, At(c, late.prior).value, late.act);
      EvolvesTransitive(At(c, early).value.ledger, At(c, late.prior).value.ledger, At(c, late).value.ledger);
    }
  }

  /**
   The stop is final: once the authority holds a refusal for an outcome, every effect it ever shows for that
   outcome, under whatever effect id, idempotency key or epoch, was already there.
   */
  lemma StopIsFinal(c: Config, early: Run, late: Run, outcome: string, key: string)
    requires Extends(late, early) && At(c, late).Some? && At(c, early).Some?
    requires outcome in At(c, early).value.ledger.refusals
    requires var l := At(c, late).value.ledger; key in l.effects && l.effects[key].outcome == outcome
    ensures var e := At(c, early).value.ledger; key in e.effects && e.effects[key].outcome == outcome
  {
    LedgerEvolves(c, early, late);
    hide Next, FencesRise, RefusalsStand;
  }

  /** With the database authority the outcome of such a refusal has no effect at all, ever. */
  lemma StoppedMeansNever(c: Config, run: Run, outcome: string)
    requires At(c, run).Some? && c.kind.Postgres? && outcome in At(c, run).value.ledger.refusals
    ensures !At(c, run).value.ledger.Committed(outcome)
  {
    LedgerKept(c, run);
    hide Next, Sound;
  }

  // ----- Agreement of the two refusal stores -----

  /** Outcome refusals are published only through `commit_protected`. */
  ghost predicate FencedRefusalsOnly(run: Run) {
    run.Do? ==>
      && (run.act.CommitRefusal? ==> run.act.refusal.body.outcomeKey == "")
      && FencedRefusalsOnly(run.prior)
  }

  ghost predicate Frozen(l: Ledger, outcome: string, epoch: int) {
    outcome in l.refusals && l.Fence(outcome) == epoch
  }

  ghost predicate AllFrozen(l: Ledger, refusals: seq<RefusalRecord>) {
    forall r | r in refusals && r.outcomeKey != "" :: Frozen(l, r.outcomeKey, r.targetEpoch)
  }

  ghost predicate Published(w: World) {
    && AllFrozen(w.ledger, w.snap.payload.refusals)
    && (w.pc.PubCompare? ==> w.pc.refusal.body.outcomeKey in w.ledger.refusals)
    && (w.pc.PubWrite? ==> Frozen(w.ledger, w.pc.refusal.body.outcomeKey, w.pc.refusal.body.targetEpoch))
  }

  lemma FrozenStays(a: Ledger, b: Ledger, refusals: seq<RefusalRecord>)
    requires Evolves(a, b) && AllFrozen(a, refusals)
    ensures AllFrozen(b, refusals)
  {
    hide FencesRise, EffectsStand;
    forall r | r in refusals && r.outcomeKey != "" ensures Frozen(b, r.outcomeKey, r.targetEpoch) {
      assert Frozen(a, r.outcomeKey, r.targetEpoch);
    }
  }

  lemma AppendKeepsFrozen(l: Ledger, s: Snapshot, r: R.RefusalIntent)
    requires AllFrozen(l, s.payload.refusals)
    requires r.body.outcomeKey != "" ==> Frozen(l, r.body.outcomeKey, r.body.targetEpoch)
    ensures AllFrozen(l, R.AppendRefusal(s, r).payload.refusals)
  {
    hide R.HasRefusal, Frozen;
  }

  /** The publication's last two waiting points and where they are reached from. */
  ghost predicate PublishMove(w: World, v: World) {
    && (v.pc.PubCompare? ==>
          v.pc == w.pc || (v.ledger == w.ledger && v.pc.refusal.body.outcomeKey in w.ledger.refusals))
    && (v.pc.PubWrite? ==>
          || v.pc == w.pc
          || (w.pc.PubCompare? && v.pc.refusal == w.pc.refusal && v.ledger == w.ledger
              && w.ledger.Fence(w.pc.refusal.body.outcomeKey) == w.pc.refusal.body.targetEpoch))
  }

  lemma PublishTickMoves(c: Config, w: World)
    requires Publishing(w.pc)
    ensures PublishMove(w, TickPublish(c, w))
  {
    hide Serve, R.AppendRefusal;
  }

  lemma PublishControl(c: Config, w: World, act: Action)
    requires Enabled(w, act)
    ensures PublishMove(w, Next(c, w, act))
  {
    hide Serve, Kernel.Issue, Check, R.Commit, R.Verify, R.HasRefusal, TickIntent, TickPublish, Journal.Fold;
    if act.Tick? {
      if Publishing(w.pc) {
        PublishTickMoves(c, w);
      } else if Working(w.pc) {
        IntentTickFrame(c, w);
      }
    }
  }

  lemma StepPublishes(c: Config, w: World, act: Action)
    requires Enabled(w, act) && Published(w) && A.Inv(w) && Kept(c.kind, w.ledger)
    requires act.CommitRefusal? ==> act.refusal.body.outcomeKey == ""
    ensures Published(Next(c, w, act))
  {
    var v := Next(c, w, act);
    StepEvolves(c, w, act);
    PublishControl(c, w, act);
    A.Classify(c, w, act);
    FrozenStays(w.ledger, v.ledger, w.snap.payload.refusals);
    if act.Issue? && A.IssueStep(w, v, act.bootId, act.issue, act.txid) {
      A.IssueFacts(w.snap, act.bootId, act.issue, act.txid);
    } else if act.CommitRefusal? && A.RefusalStep(w, v, act.refusal) {
      AppendKeepsFrozen(v.ledger, w.snap, act.refusal);
    } else if act.Tick? && w.pc.PubWrite? {
      AppendKeepsFrozen(v.ledger, w.snap, w.pc.refusal);
    }
    hide Next, AllFrozen, A.IssueStep, R.AppendRefusal, Kernel.Issue, Evolves, Sound, Exclusive;
  }

  lemma {:induction false} ReachablePublished(c: Config, run: Run)
    requires At(c, run).Some? && FencedRefusalsOnly(run)
    ensures Published(At(c, run).value)
  {
    hide Next, Kept;
    if run.Do? {
      ReachablePublished(c, run.prior);
      LedgerKept(c, run.prior);
      A.ReachableInv(c, run.prior);
      StepPublishes(c, At(c, run.prior).value, run.act);
    }
  }

  /** Every local outcome refusal is terminal at the authority, with the authority's fence frozen at its epoch. */
  lemma LocalRefusalsAreTerminal(c: Config, run: Run, r: RefusalRecord)
    requires At(c, run).Some? && FencedRefusalsOnly(run)
    requires r in At(c, run).value.snap.payload.refusals && r.outcomeKey != ""
    ensures var l := At(c, run).value.ledger;
            r.outcomeKey in l.refusals && l.Fence(r.outcomeKey) == r.targetEpoch
  {
    ReachablePublished(c, run);
  }

  // ----- Retrying an interrupted publication -----

  /** `late` is `base`, then `commit_protected(r)` with `ticks` steps taken, other clients acting freely. */
  ghost predicate Retrying(late: Run, base: Run, r: R.RefusalIntent, ticks: nat) {
    late.Do?
    && (|| (late.prior == base && late.act == CommitProtected(r) && ticks == 0)
        || (late.act.Tick? && ticks > 0 && Retrying(late.prior, base, r, ticks - 1))
        || ((late.act.Foreign? || late.act.Drift?) && Retrying(late.prior, base, r, ticks)))
  }

  /** What is left to do after `ticks` steps of a retry that finds the authority already refused. */
  ghost predicate RetryStage(s: Snapshot, w: World, r: R.RefusalIntent, ticks: nat) {
    && Frozen(w.ledger, r.body.outcomeKey, r.body.targetEpoch)
    && (if ticks == 5 then w.pc.Idle? && w.snap == R.AppendRefusal(s, r)
        else
          && w.snap == s
          && w.pc == match ticks
                     case 0 => PubFence(r, false)
                     case 1 => PubAsk(r, false)
                     case 2 => PubConfirm(r, false)
                     case 3 => PubCompare(r, false)
                     case _ => PubWrite(r))
  }

  lemma RetryTick(c: Config, s: Snapshot, w: World, r: R.RefusalIntent, ticks: nat)
    requires Enabled(w, Tick) && RetryStage(s, w, r, ticks) && ticks <= 5
    ensures ticks < 5 && TickOf(c, w) == TickPublish(c, w) && RetryStage(s, TickPublish(c, w), r, ticks + 1)
  {
    hide Serve, R.AppendRefusal, TickIntent;
  }

  lemma RetryWaits(c: Config, s: Snapshot, w: World, r: R.RefusalIntent, ticks: nat, act: Action)
    requires Enabled(w, act) && Kept(c.kind, w.ledger) && RetryStage(s, w, r, ticks) && ticks <= 5
    requires act.Foreign? || act.Drift?
    ensures RetryStage(s, Next(c, w, act), r, ticks)
  {
    StepEvolves(c, w, act);
    var v := Next(c, w, act);
    assert v.pc == w.pc && v.snap == w.snap;
    assert Frozen(v.ledger, r.body.outcomeKey, r.body.targetEpoch) by {
      hide Next, FencesRise, EffectsStand, NothingAfterRefusal, Kept;
    }
    hide Next, Frozen, Evolves, NothingAfterRefusal, Kept, R.AppendRefusal;
  }

  /**
   After a crash between the external and the local write, the same refusal retried completes in five steps
   whenever the local epoch is still below its target, whatever other clients do meanwhile.
   */
  lemma {:induction false} RetryCompletes(c: Config, base: Run, late: Run, r: R.RefusalIntent, ticks: nat)
    requires At(c, late).Some? && At(c, base).Some? && Retrying(late, base, r, ticks) && ticks <= 5
    requires var w := At(c, base).value;
             && R.Verify(c.creds, r) && r.body.outcomeKey != ""
             && Frozen(w.ledger, r.body.outcomeKey, r.body.targetEpoch)
             && w.snap.epoch < r.body.targetEpoch && !R.HasRefusal(w.snap, r)
    ensures RetryStage(At(c, base).value.snap, At(c, late).value, r, ticks)
    ensures ticks == 5 ==> R.HasRefusal(At(c, late).value.snap, r) && At(c, late).value.snap.epoch == r.body.targetEpoch
    decreases late
  {
    var w := At(c, late.prior).value;
    if late.prior == base && late.act == CommitProtected(r) && ticks == 0 {
      hide R.Verify, R.HasRefusal;
    } else {
      var before := if late.act.Tick? then ticks - 1 else ticks;
      hide Next, RetryStage;
      RetryCompletes(c, base, late.prior, r, before);
      LedgerKept(c, late.prior);
      if late.act.Tick? {
        TickIsTick(c, w);
        RetryTick(c, At(c, base).value.snap, w, r, before);
      } else {
        RetryWaits(c, At(c, base).value.snap, w, r, before, late.act);
      }
    }
    if ticks == 5 {
      AppendedIsRecorded(At(c, base).value.snap, r);
    }
  }

  lemma TickIsTick(c: Config, w: World)
    requires Enabled(w, Tick)
    ensures Next(c, w, Tick) == TickOf(c, w)
  {}

  lemma AppendedIsRecorded(s: Snapshot, r: R.RefusalIntent)
    ensures R.HasRefusal(R.AppendRefusal(s, r), r) && R.AppendRefusal(s, r).epoch == r.body.targetEpoch
  {
    if !R.HasRefusal(s, r) {
      assert r.body in R.AppendRefusal(s, r).payload.refusals;
    }
  }

  // ----- Publications that can no longer be completed -----

  ghost predicate Unnamed(s: Snapshot, o: string) {
    forall r | r in s.payload.refusals :: r.outcomeKey != o
  }

  /** The authority refuses the outcome, the local store does not know, and its epoch has reached the fence. */
  ghost predicate Stranded(w: World, o: string) {
    o != "" && o in w.ledger.refusals && w.ledger.Fence(o) <= w.snap.epoch && Unnamed(w.snap, o)
  }

  lemma AppendStaysUnnamed(s: Snapshot, r: R.RefusalIntent, o: string)
    requires Unnamed(s, o) && r.body.outcomeKey != o
    ensures Unnamed(R.AppendRefusal(s, r), o) && R.AppendRefusal(s, r).epoch == r.body.targetEpoch
  {
    hide R.HasRefusal;
  }

  lemma StepStrands(c: Config, w: World, act: Action, o: string)
    requires Enabled(w, act) && Published(w) && A.Inv(w) && Kept(c.kind, w.ledger) && Stranded(w, o)
    requires act.CommitRefusal? ==> act.refusal.body.outcomeKey == ""
    ensures Stranded(Next(c, w, act), o)
  {
    var v := Next(c, w, act);
    StepEvolves(c, w, act);
    A.Classify(c, w, act);
    hide Next, AllFrozen, A.IssueStep, R.AppendRefusal, Kernel.Issue, Sound, Exclusive, Kept, EffectsStand, FencesRise;
    hide A.Register, NothingAfterRefusal;
    if act.Issue? && A.IssueStep(w, v, act.bootId, act.issue, act.txid) {
      IssueKeepsRefusals(w, v, act.bootId, act.issue, act.txid);
    } else if act.CommitRefusal? && A.RefusalStep(w, v, act.refusal) {
      AppendStaysUnnamed(w.snap, act.refusal, o);
    } else if act.Tick? && w.pc.PubWrite? {
      if w.pc.refusal.body.outcomeKey != o {
        AppendStaysUnnamed(w.snap, w.pc.refusal, o);
      }
    }
  }

  lemma IssueKeepsRefusals(w: World, v: World, bootId: string, q: IssueRequest, txid: string)
    requires A.Inv(w) && A.IssueStep(w, v, bootId, q, txid)
    ensures v.snap.payload.refusals == w.snap.payload.refusals && w.snap.epoch <= v.snap.epoch
  {
    A.IssueFacts(w.snap, bootId, q, txid);
    hide Kernel.Issue, A.WellNamed;
  }

  /** Once stranded, always: no later run puts a refusal of that outcome on record locally. */
  lemma {:induction false} StrandedForever(c: Config, early: Run, late: Run, o: string)
    requires Extends(late, early) && FencedRefusalsOnly(late) && At(c, late).Some? && At(c, early).Some?
    requires Stranded(At(c, early).value, o)
    ensures Stranded(At(c, late).value, o)
  {
    if late != early {
      hide Next, Kept, Stranded, Published, A.Inv;
      StrandedForever(c, early, late.prior, o);
      ReachablePublished(c, late.prior);
      LedgerKept(c, late.prior);
      A.ReachableInv(c, late.prior);
      StepStrands(c, At(c, late.prior).value, late.act, o);
    }
  }

  /** `commit_protected(r)` and `n` steps of it, undisturbed. */
  function Retried(run: Run, r: R.RefusalIntent, n: nat): Run {
    if n == 0 then Do(run, CommitProtected(r)) else Do(Retried(run, r, n - 1), Tick)
  }

  lemma {:induction false} RetriedShape(base: Run, r: R.RefusalIntent, n: nat)
    requires FencedRefusalsOnly(base)
    ensures Retrying(Retried(base, r, n), base, r, n)
    ensures Extends(Retried(base, r, n), base) && FencedRefusalsOnly(Retried(base, r, n))
  {
    if n > 0 {
      RetriedShape(base, r, n - 1);
    }
  }

  ghost predicate Retriable(c: Config, w: World, r: R.RefusalIntent) {
    && w.pc.Idle? && R.Verify(c.creds, r) && r.body.outcomeKey != ""
    && Frozen(w.ledger, r.body.outcomeKey, r.body.targetEpoch)
    && w.snap.epoch < r.body.targetEpoch && !R.HasRefusal(w.snap, r)
  }

  lemma RetriedStage(c: Config, base: Run, r: R.RefusalIntent, n: nat)
    requires At(c, base).Some? && n <= 5 && FencedRefusalsOnly(base) && Retriable(c, At(c, base).value, r)
    requires At(c, Retried(base, r, n)).Some?
    ensures n < 5 ==> !At(c, Retried(base, r, n)).value.pc.Idle?
  {
    RetriedShape(base, r, n);
    RetryCompletes(c, base, Retried(base, r, n), r, n);
    hide At, Retriable, Retrying, RetryStage, Retried;
    if n < 5 {
      StageIsBusy(At(c, base).value.snap, At(c, Retried(base, r, n)).value, r, n);
    }
  }

  lemma {:induction false} RetriedRuns(c: Config, base: Run, r: R.RefusalIntent, n: nat)
    requires At(c, base).Some? && n <= 5 && FencedRefusalsOnly(base) && Retriable(c, At(c, base).value, r)
    ensures At(c, Retried(base, r, n)).Some?
  {
    if n > 0 {
      hide At, Next, Retriable;
      RetriedRuns(c, base, r, n - 1);
      RetriedStage(c, base, r, n - 1);
      AtDo(c, Retried(base, r, n - 1), Tick, At(c, Retried(base, r, n - 1)).value);
    } else {
      RetryBegins(c, At(c, base).value, r);
      hide At, Next, R.Verify, R.HasRefusal;
      AtDo(c, base, CommitProtected(r), At(c, base).value);
    }
  }

  lemma RetryBegins(c: Config, w: World, r: R.RefusalIntent)
    requires w.pc.Idle?
    ensures Enabled(w, CommitProtected(r))
  {}

  lemma StageIsBusy(s: Snapshot, w: World, r: R.RefusalIntent, ticks: nat)
    requires RetryStage(s, w, r, ticks) && ticks < 5
    ensures !w.pc.Idle?
  {}

  /** Some later run has a refusal of the outcome on record locally. */
  ghost predicate Completable(c: Config, run: Run, o: string) {
    exists late :: Completes(c, late, run, o)
  }

  ghost predicate Completes(c: Config, late: Run, run: Run, o: string) {
    Extends(late, run) && FencedRefusalsOnly(late) && At(c, late).Some? && !Unnamed(At(c, late).value.snap, o)
  }

  /** A principal signs a refusal of the outcome at the epoch the authority has frozen. */
  lemma Signed(creds: R.Credentials, o: string, epoch: int) returns (r: R.RefusalIntent)
    requires creds != map[] && CanonicalOutcomeKey(o)
    ensures R.Verify(creds, r) && r.body.outcomeKey == o && r.body.targetEpoch == epoch
  {
    var p :| p in creds;
    var body := RefusalRecord("r", p, "e", "", epoch, 0, o);
    r := R.RefusalIntent(body, R.Signature(creds[p], body));
    assert CanonicalEffectId("e");
    hide CanonicalOutcomeKey;
  }

  lemma RecordedIsNamed(s: Snapshot, r: R.RefusalIntent)
    ensures R.HasRefusal(s, r) ==> !Unnamed(s, r.body.outcomeKey)
  {}

  /**
   A publication interrupted after its external write can be completed by some later run, by a new refusal
   included, exactly when the local epoch is still below the fence the authority has frozen.
   */
  lemma CompletableExactly(c: Config, run: Run, o: string)
    requires At(c, run).Some? && FencedRefusalsOnly(run) && c.creds != map[] && CanonicalOutcomeKey(o)
    requires var w := At(c, run).value; w.pc.Idle? && o in w.ledger.refusals && Unnamed(w.snap, o)
    ensures Completable(c, run, o) <==> At(c, run).value.snap.epoch < At(c, run).value.ledger.Fence(o)
  {
    var w := At(c, run).value;
    if w.snap.epoch < w.ledger.Fence(o) {
      var r := Signed(c.creds, o, w.ledger.Fence(o));
      RecordedIsNamed(w.snap, r);
      RetriedRuns(c, run, r, 5);
      RetriedShape(run, r, 5);
      RetryCompletes(c, run, Retried(run, r, 5), r, 5);
      RecordedIsNamed(At(c, Retried(run, r, 5)).value.snap, r);
      assert Completes(c, Retried(run, r, 5), run, o);
    } else {
      forall late | Completes(c, late, run, o) ensures false {
        StrandedForever(c, run, late, o);
      }
    }
    hide At, R.Verify, R.HasRefusal, CanonicalOutcomeKey, Retried, Retrying, RetryStage;
  }
}
