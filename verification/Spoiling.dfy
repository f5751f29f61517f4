/**
 Exactly when the gate spoils its own journal. The one line that is ever rejected is a REFUSED line for an
 intent whose terminal line is already there; everything else follows from what REFUSED lines mean for good.
 */
module Spoiling {
  import opened Base
  import opened Durable
  import opened Kernel
  import opened Gate
  import opened Protocol
  import J = Journal
  import A = Authorisation
  import C = Calls
  import D = Delivery
  import H = JournalHealth
  import Fencing
  import Authority

  predicate Unknown(log: seq<J.Record>, key: string) {
    forall r | r in log :: r.key != key
  }

  /** A REFUSED line is written only for an intent that is not clear to go ahead, and it never becomes clear again. */
  ghost predicate Barred(w: World) {
    && (forall k | D.Logged(w.log, J.Refused, k) :: k in w.ever && !C.Clear(w.snap, w.ever[k]))
    && (w.pc.AppendRefused? ==> !C.Clear(w.snap, w.pc.it))
  }

  /** A direct call journals COMMITTED once. */
  ghost predicate NotYet(w: World) {
    C.HasIntent(w.pc) && w.pc.flow.Direct? && !H.Dropping(w.pc) ==> !D.Logged(w.log, J.Committed, w.pc.it.key)
  }

  /** PREPARED is written only for keys the journal does not know, and the loop knows which those are. */
  ghost predicate Unlogged(w: World) {
    && (w.pc.AppendPrepared? ==> Unknown(w.log, w.pc.it.key))
    && (Working(w.pc) && w.pc.flow.Loop? ==>
          forall x | x in w.pc.flow.rest && x.key !in w.pc.flow.records :: Unknown(w.log, x.key))
  }

  predicate WellNamed(it: Intent) {
    it.outcomeKey == "" || CanonicalOutcomeKey(it.outcomeKey)
  }

  ghost predicate Named(w: World) {
    forall k | k in w.ever :: WellNamed(w.ever[k]) && CanonicalEffectId(w.ever[k].effectId)
  }

  ghost predicate Inv(w: World) {
    Barred(w) && NotYet(w) && Unlogged(w) && Named(w)
  }

  // ----- What only moves forward -----

  predicate Later(s: Snapshot, t: Snapshot) {
    s.epoch <= t.epoch && s.payload.refusals <= t.payload.refusals
  }

  /** The epoch never falls and the refusal list only grows. */
  lemma StepIsLater(c: Config, w: World, act: Action)
    requires A.Inv(w) && Enabled(w, act)
    ensures Later(w.snap, Next(c, w, act).snap)
  {
    C.StepExtendsRefusals(c, w, act);
    hide Next;
    A.Classify(c, w, act);
    var v := Next(c, w, act);
    if act.Issue? && A.IssueStep(w, v, act.bootId, act.issue, act.txid) {
      A.IssueFacts(w.snap, act.bootId, act.issue, act.txid);
    }
    hide A.IssueStep, Kernel.Issue;
  }

  lemma BarredStays(s: Snapshot, t: Snapshot, it: Intent)
    requires it.epoch <= s.epoch && Later(s, t) && !C.Clear(s, it)
    ensures !C.Clear(t, it)
  {
    if it.epoch == s.epoch && IsRefused(s, it.effectId, it.outcomeKey) {
      RefusedStays(s, t, it.effectId, it.outcomeKey);
    }
    hide IsRefused;
  }

  lemma RefusedStays(s: Snapshot, t: Snapshot, effectId: string, outcomeKey: string)
    requires s.payload.refusals <= t.payload.refusals && IsRefused(s, effectId, outcomeKey)
    ensures IsRefused(t, effectId, outcomeKey)
  {
    hide CanonicalEffectId, CanonicalOutcomeKey;
  }

  lemma ClearAlike(s: Snapshot, t: Snapshot, it: Intent)
    requires t.epoch == s.epoch && t.payload == s.payload
    ensures C.Clear(s, it) <==> C.Clear(t, it)
  {}

  /** No intent belongs to a future epoch. */
  lemma EpochsPassed(w: World, k: string)
    requires A.Inv(w) && C.Ledgered(w) && k in w.ever
    ensures w.ever[k].epoch <= w.snap.epoch
  {
    var cap :| cap in w.issued && C.Backs(cap, w.ever[k]);
    assert A.Endorsed(w.snap, cap);
    hide A.WellNamed;
  }

  // ----- Steps on an intent -----

  lemma ExaminedRefuses(s: Snapshot, flow: Flow, it: Intent)
    ensures Examined(s, flow, it).AppendRefused? ==> Examined(s, flow, it) == AppendRefused(flow, it) && !C.Clear(s, it)
  {
    hide IsRefused, Matching, CanonicalOutcomeKey;
  }

  lemma FrameKeepsClear(w: World, v: World, it: Intent)
    requires IntentFrame(w, v) && C.HasIntent(w.pc)
    ensures C.Clear(w.snap, it) <==> C.Clear(v.snap, it)
  {
    C.SettleFrame(w.snap, w.pc.it.key);
    ClearAlike(w.snap, v.snap, it);
    hide Settle, C.Clear;
  }

  lemma RefusesNext(c: Config, w: World, v: World)
    requires D.IntentStep(c, w, v) && v.pc.AppendRefused?
    ensures w.pc.Examine? && v.pc.it == w.pc.it && !C.Clear(w.snap, v.pc.it)
  {
    if w.pc.Examine? {
      ExaminedRefuses(w.snap, w.pc.flow, w.pc.it);
    }
    hide D.LogStep, IntentFrame, Settle, Examined, TakeNext, D.Held, Authority.Evolves, C.Clear, D.Logged, J.Fold;
  }

  lemma BarredKeeps(c: Config, w: World, v: World)
    requires D.IntentStep(c, w, v) && Barred(w)
    ensures Barred(v)
  {
    D.StepLogged(w, v);
    forall k | D.Logged(v.log, J.Refused, k) ensures k in v.ever && !C.Clear(v.snap, v.ever[k]) {
      FrameKeepsClear(w, v, w.ever[k]);
    }
    if v.pc.AppendRefused? {
      RefusesNext(c, w, v);
      FrameKeepsClear(w, v, v.pc.it);
    }
    hide C.Clear, D.Logged, Settle, Successor, D.Held, Authority.Evolves, J.Fold, RecordOf;
  }

  lemma NotYetKeeps(c: Config, w: World, v: World)
    requires D.IntentStep(c, w, v) && NotYet(w)
    ensures NotYet(v)
  {
    D.StepLogged(w, v);
    C.ExamineHandsOver(w.snap, w.pc.flow, w.pc.it);
    hide C.Clear, D.Logged, Settle, Examined, TakeNext, D.Held, Authority.Evolves, J.Fold, RecordOf, IntentFrame;
  }

  lemma FoldKnowsAll(log: seq<J.Record>, key: string)
    requires J.Fold(log).Some? && key !in J.Fold(log).value
    ensures Unknown(log, key)
  {
    forall r | r in log ensures r.key != key {
      if r.key == key {
        H.LoggedIsKnown(log, r.status, key);
      }
    }
    hide J.Fold;
  }

  lemma UnknownGrows(log: seq<J.Record>, r: J.Record, key: string)
    requires Unknown(log, key) && r.key != key
    ensures Unknown(log + [r], key)
  {}

  /** Where the loop's remaining intents stand after a step. */
  lemma SameRest(c: Config, w: World, v: World)
    requires D.IntentStep(c, w, v) && Working(v.pc) && v.pc.flow.Loop? && w.pc.flow.Loop?
    ensures v.pc.flow.rest == w.pc.flow.rest
  {
    C.ExamineHandsOver(w.snap, w.pc.flow, w.pc.it);
    hide J.Fold, D.LogStep, IntentFrame, Settle, Examined, TakeNext, D.Held, Authority.Evolves, C.Clear, D.Logged;
  }

  lemma UnloggedKeeps(c: Config, w: World, v: World)
    requires D.IntentStep(c, w, v) && Unlogged(w) && (Working(v.pc) ==> w.pc.flow.Loop? == v.pc.flow.Loop?)
    requires C.Queued(w.snap, w.pc) && DistinctKeys(w.snap.pending)
    ensures Unlogged(v)
  {
    H.DirectNeverPrepares(c, w, v);
    if Working(v.pc) && v.pc.flow.Loop? {
      SameRest(c, w, v);
      H.OthersKeepKeys(w.snap, w.pc);
      var r := RecordOf(D.LineOf(w.pc), w.pc.it);
      assert r.key == w.pc.it.key;
      hide D.IntentStep, J.Fold, RecordOf, Unknown, C.Queued, DistinctKeys;
      LogIsStep(c, w, v);
      forall x | x in v.pc.flow.rest && x.key !in v.pc.flow.records ensures Unknown(v.log, x.key) {
        if J.Fold(v.log) == Some(v.pc.flow.records) {
          FoldKnowsAll(v.log, x.key);
        } else if v.log != w.log {
          UnknownGrows(w.log, r, x.key);
        }
      }
    }
  }

  lemma LogIsStep(c: Config, w: World, v: World)
    requires D.IntentStep(c, w, v)
    ensures v.log == w.log || v.log == w.log + [RecordOf(D.LineOf(w.pc), w.pc.it)]
    ensures Working(v.pc) && v.pc.flow.Loop? && w.pc.flow.Loop? ==>
              v.pc.flow.records == w.pc.flow.records || J.Fold(v.log) == Some(v.pc.flow.records)
  {
    hide J.Fold, RecordOf, IntentFrame, Successor, D.Held, Authority.Evolves, D.Logged;
  }

  lemma IntentKeeps(c: Config, w: World)
    requires C.Inv(w) && D.Inv(c, w) && C.HasIntent(w.pc) && Authority.Kept(c.kind, w.ledger) && Inv(w)
    ensures Inv(TickIntent(c, w))
  {
    var v := TickIntent(c, w);
    D.IntentStepFacts(c, w);
    assert v.ever == w.ever;
    hide TickIntent, D.Inv, D.IntentStep, Barred, NotYet, Unlogged, C.CallOk;
    BarredKeeps(c, w, v);
    NotYetKeeps(c, w, v);
    UnloggedKeeps(c, w, v);
  }

  // ----- Steps that start or interrupt an operation -----

  lemma FreshKeeps(w: World, v: World, it: Intent)
    requires D.Fresh(w, v, it) && D.Restates(w.log, w.ever) && Inv(w) && WellNamed(it) && CanonicalEffectId(it.effectId)
    requires forall x :: C.Clear(w.snap, x) <==> C.Clear(v.snap, x)
    ensures Inv(v)
  {
    assert Unknown(v.log, it.key);
    hide C.Clear, RecordOf;
  }

  lemma SpendKeepsClear(s: Snapshot, q: EffectRequest, pending: seq<Intent>)
    ensures forall x :: C.Clear(s, x) <==> C.Clear(Spend(s, q, pending), x)
  {
    C.SpendFrame(s, q, pending);
    hide Spend, IsRefused;
  }

  lemma UnrefusedIsNamed(s: Snapshot, it: Intent)
    requires !IsRefused(s, it.effectId, it.outcomeKey)
    ensures WellNamed(it) && CanonicalEffectId(it.effectId)
  {}

  lemma RecordKeeps(w: World, q: EffectRequest, params: string, protected: bool)
    requires C.Ledgered(w) && D.Restates(w.log, w.ever) && Inv(w)
    requires C.Admissible(w, q, if protected then q.cap.claims.outcomeKey else "")
    ensures Inv(Record(w, q, params, protected))
  {
    var it := IntentOf(w.snap, q, params, protected);
    D.RecordIsFresh(w, q, params, protected);
    SpendKeepsClear(w.snap, q, w.snap.pending + [it]);
    UnrefusedIsNamed(w.snap, it);
    var v := Record(w, q, params, protected);
    assert v.snap == Spend(w.snap, q, w.snap.pending + [it]);
    hide C.Ledgered, D.Restates, Record, Inv, D.Fresh, Spend, C.Clear;
    FreshKeeps(w, v, it);
  }

  lemma ElsewhereBarred(w: World, v: World)
    requires D.Elsewhere(w, v) && Barred(w) && A.Inv(w) && C.Ledgered(w) && C.Queued(w.snap, w.pc)
    requires Later(w.snap, v.snap)
    ensures Barred(v)
  {
    forall k | D.Logged(v.log, J.Refused, k) ensures k in v.ever && !C.Clear(v.snap, v.ever[k]) {
      EpochsPassed(w, k);
      BarredStays(w.snap, v.snap, w.ever[k]);
    }
    if v.pc.AppendRefused? {
      C.TrackedIntent(w);
      EpochsPassed(w, w.pc.it.key);
      BarredStays(w.snap, v.snap, w.pc.it);
    }
    hide A.Inv, C.Ledgered, C.Queued, C.Clear, Later, D.Logged, Authority.Evolves, J.Fold;
  }

  lemma ElsewhereUnlogged(w: World, v: World)
    requires D.Elsewhere(w, v) && NotYet(w) && Unlogged(w) && C.Queued(w.snap, w.pc)
    ensures NotYet(v) && Unlogged(v)
  {
    if v.pc.NextIntent? && v.pc.flow.Loop? && J.Fold(w.log) == Some(v.pc.flow.records) {
      forall x | x in v.pc.flow.rest && x.key !in v.pc.flow.records ensures Unknown(v.log, x.key) {
        FoldKnowsAll(v.log, x.key);
      }
    }
    hide D.Logged, Unknown, Authority.Evolves, J.Fold;
  }

  lemma OtherKeeps(c: Config, w: World, act: Action)
    requires A.Inv(w) && C.Inv(w) && Authority.Kept(c.kind, w.ledger) && Inv(w) && Enabled(w, act)
    requires !(act.Tick? && C.HasIntent(w.pc)) && !act.ExecuteProtected? && !act.ExecuteRecoverable?
    ensures Inv(Next(c, w, act))
  {
    H.OtherIsElsewhere(c, w, act);
    StepIsLater(c, w, act);
    hide Next, A.Inv, C.Ledgered, C.Queued, C.CallOk, Barred, NotYet, Unlogged, Later, Authority.Kept, D.Elsewhere;
    ElsewhereBarred(w, Next(c, w, act));
    ElsewhereUnlogged(w, Next(c, w, act));
    assert Next(c, w, act).ever == w.ever by { D.OtherStores(c, w, act); }
  }

  lemma StepKeeps(c: Config, w: World, act: Action)
    requires A.Inv(w) && C.Inv(w) && D.Inv(c, w) && Authority.Kept(c.kind, w.ledger) && Inv(w) && Enabled(w, act)
    ensures Inv(Next(c, w, act))
  {
    if act.ExecuteProtected? || act.ExecuteRecoverable? {
      NextRecords(c, w, act);
      if Check(w.snap, act.bootId, act.req, Some(act.params), act.ExecuteProtected?).None? {
        C.CheckedIsAdmissible(w, act.bootId, act.req, Some(act.params), act.ExecuteProtected?);
        hide Inv, Next, Check, Record, C.Ledgered, C.Admissible, C.Requested, D.Restates, Authority.Kept;
        RecordKeeps(w, act.req, act.params, act.ExecuteProtected?);
      }
      hide Inv, Next, Check, Record, Authority.Kept, C.Inv, D.Inv;
    } else if act.Tick? && C.HasIntent(w.pc) {
      NextOnIntent(c, w);
      hide Inv, Next, TickIntent, C.Inv, D.Inv, Authority.Kept;
      IntentKeeps(c, w);
    } else {
      hide Inv, Next, A.Inv, C.Inv, Authority.Kept;
      OtherKeeps(c, w, act);
    }
  }

  lemma {:induction false} ReachableInv(c: Config, run: Run)
    requires At(c, run).Some?
    ensures Inv(At(c, run).value)
  {
    if run.Do? {
      ReachableInv(c, run.prior);
      A.ReachableInv(c, run.prior);
      C.ReachableInv(c, run.prior);
      D.ReachableInv(c, run.prior);
      Fencing.LedgerKept(c, run.prior);
      hide Inv, Next, A.Inv, C.Inv, D.Inv, Authority.Kept;
      StepKeeps(c, At(c, run.prior).value, run.act);
    }
  }

  // ----- The line that spoils -----

  /** The journal's record of the key is terminal. */
  predicate HasTerminalLine(log: seq<J.Record>, key: string) {
    J.Fold(log).Some? && key in J.Fold(log).value && !J.Fold(log).value[key].status.Prepared?
  }

  lemma TerminalIsKnown(log: seq<J.Record>, key: string)
    requires J.Fold(log).Some?
    ensures D.Terminal(log, key) ==> HasTerminalLine(log, key)
  {
    if D.Terminal(log, key) {
      if D.Logged(log, J.Committed, key) {
        H.LoggedIsKnown(log, J.Committed, key);
      } else {
        H.LoggedIsKnown(log, J.Refused, key);
      }
      if J.Fold(log).value[key].status.Prepared? {
        H.OpenHasNoTerminal(log, key);
      }
    }
    hide J.Fold, D.Logged;
  }

  lemma UnknownIsNew(log: seq<J.Record>, key: string)
    requires J.Fold(log).Some? && Unknown(log, key)
    ensures key !in J.Fold(log).value
  {
    if key in J.Fold(log).value {
      D.FoldLast(log, key);
    }
  }

  /** The loop writes no second COMMITTED line. */
  lemma CommittedOnce(w: World)
    requires w.pc.AppendCommitted? && w.pc.flow.Loop? && J.Fold(w.log).Some?
    requires w.pc.it.key in J.Fold(w.log).value && J.Fold(w.log).value[w.pc.it.key].status.Committed?
    ensures JournalCommitted(w, w.pc.flow, w.pc.it).log == w.log
  {
    hide J.Fold, RecordOf;
  }

  /** A COMMITTED line is written only over a PREPARED one. */
  lemma CommittedIsDue(c: Config, w: World)
    requires w.pc.AppendCommitted? && J.Fold(w.log).Some? && D.Restates(w.log, w.ever) && D.Announced(w)
    requires Barred(w) && NotYet(w) && C.CallOk(w.snap, w.issued, w.pc)
    requires w.pc.it.key in w.ever && w.ever[w.pc.it.key] == w.pc.it
    ensures w.pc.it.key in J.Fold(w.log).value
    ensures J.Fold(w.log).value[w.pc.it.key].status.Prepared? || JournalCommitted(w, w.pc.flow, w.pc.it).log == w.log
  {
    var key := w.pc.it.key;
    H.LoggedIsKnown(w.log, J.Prepared, key);
    D.FoldLast(w.log, key);
    H.KnownRestates(w.log, w.ever, key);
    if J.Fold(w.log).value[key].status.Committed? && w.pc.flow.Loop? {
      CommittedOnce(w);
    }
    StatusKnown(w.log, w.ever, key);
    hide J.Fold, RecordOf, C.Clear, JournalCommitted, D.Logged, D.Restates;
  }

  lemma StatusKnown(log: seq<J.Record>, ever: map<string, Intent>, key: string)
    requires J.Fold(log).Some? && D.Restates(log, ever) && key in J.Fold(log).value
    ensures !J.Fold(log).value[key].status.Other?
  {
    D.FoldLast(log, key);
    hide J.Fold, RecordOf;
  }

  lemma LineSpoilsExactly(c: Config, w: World)
    requires C.HasIntent(w.pc) && J.Fold(w.log).Some?
    requires C.Inv(w) && D.Inv(c, w) && H.Inv(w) && Inv(w) && Authority.Kept(c.kind, w.ledger)
    ensures J.Fold(TickIntent(c, w).log).None? <==> w.pc.AppendRefused? && HasTerminalLine(w.log, w.pc.it.key)
  {
    var v := TickIntent(c, w);
    var it := w.pc.it;
    D.IntentStepFacts(c, w);
    C.TrackedIntent(w);
    LogIsStep(c, w, v);
    WritesAtAll(c, w, v);
    assert D.Announced(w) && D.Restates(w.log, w.ever) && it.key != "";
    if v.log != w.log {
      if w.pc.AppendPrepared? {
        UnknownIsNew(w.log, it.key);
        H.AppendAccepted(w.log, w.ever, J.Prepared, it);
      } else if w.pc.AppendCommitted? {
        CommittedIsDue(c, w);
        H.AppendAccepted(w.log, w.ever, J.Committed, it);
      } else {
        H.LoggedIsKnown(w.log, J.Prepared, it.key);
        if HasTerminalLine(w.log, it.key) {
          H.SecondTerminalSpoils(w.log, J.Refused, it);
        } else {
          H.AppendAccepted(w.log, w.ever, J.Refused, it);
        }
      }
    }
    hide TickIntent, J.Fold, RecordOf, D.IntentStep, C.Inv, D.Inv, H.Inv, Inv;
  }

  lemma WritesAtAll(c: Config, w: World, v: World)
    requires D.IntentStep(c, w, v)
    ensures w.pc.AppendRefused? ==> v.log != w.log
    ensures v.log != w.log ==> D.Appends(w.pc)
  {
    hide J.Fold, RecordOf, IntentFrame, Successor, D.Held, Authority.Evolves, D.Logged;
  }

  /**
   In every reachable state an acceptable journal stays acceptable, whatever happens next, except in one
   case: the loop writes the REFUSED line of an intent that already has its terminal line.
   */
  lemma SpoilsExactly(c: Config, run: Run, act: Action)
    requires At(c, run).Some? && Enabled(At(c, run).value, act) && J.Fold(At(c, run).value.log).Some?
    ensures var w := At(c, run).value;
            J.Fold(Next(c, w, act).log).None? <==>
              act.Tick? && w.pc.AppendRefused? && HasTerminalLine(w.log, w.pc.it.key)
  {
    var w := At(c, run).value;
    if act.Tick? && C.HasIntent(w.pc) {
      ReachableInv(c, run);
      C.ReachableInv(c, run);
      D.ReachableInv(c, run);
      H.ReachableInv(c, run);
      Fencing.LedgerKept(c, run);
      NextOnIntent(c, w);
      hide Next, At, TickIntent, C.Inv, D.Inv, H.Inv, Inv, Authority.Kept, J.Fold, HasTerminalLine;
      LineSpoilsExactly(c, w);
    } else if act.ExecuteProtected? || act.ExecuteRecoverable? {
      NextRecords(c, w, act);
      hide Next, At, Check, J.Fold;
    } else {
      D.OtherStores(c, w, act);
      hide Next, At, J.Fold;
    }
  }

  /** Somewhere in the run the loop refused an intent over its terminal line. */
  ghost predicate RefusedOver(c: Config, run: Run) {
    && run.Do?
    && (|| RefusedOver(c, run.prior)
        || (run.act.Tick? && At(c, run.prior).Some?
            && var w := At(c, run.prior).value;
               w.pc.AppendRefused? && HasTerminalLine(w.log, w.pc.it.key)))
  }

  /** Over whole runs: the journal is acceptable exactly when that never happened. */
  lemma {:induction false} SpoiledRunsExactly(c: Config, run: Run)
    requires At(c, run).Some?
    ensures J.Acceptable(At(c, run).value.log) <==> !RefusedOver(c, run)
  {
    J.FoldAccepts(At(c, run).value.log);
    if run.Do? {
      var w := At(c, run.prior).value;
      SpoiledRunsExactly(c, run.prior);
      J.FoldAccepts(w.log);
      hide Next, J.Fold, J.Acceptable, Enabled;
      if J.Fold(w.log).Some? {
        SpoilsExactly(c, run.prior, run.act);
      } else {
        H.StepGrowsLog(c, w, run.act);
        StaysSpoiled(w.log, At(c, run).value.log);
      }
    } else {
      assert J.Fold(At(c, run).value.log).Some?;
    }
  }

  lemma StaysSpoiled(log: seq<J.Record>, longer: seq<J.Record>)
    requires log <= longer && J.Fold(log).None?
    ensures J.Fold(longer).None?
  {
    assert longer[..|log|] == log;
    J.RejectedForGood(longer, |log|);
  }
}
