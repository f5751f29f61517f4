/**
 What a REFUSED line says about the outside. It says that the gate will not cause the effect any more, and it
 says nothing about what happened before: exactly when the effect is there although its intent is REFUSED.
 */
module RefusedEffects {
  import opened Base
  import opened Durable
  import opened Gate
  import opened Protocol
  import opened Spoiling
  import opened Steps
  import A = Authorisation
  import C = Calls
  import D = Delivery
  import J = Journal
  import Authority
  import Fencing

  /** The step writes the REFUSED line for `k`. */
  predicate Refuses(w: World, act: Action, k: string) {
    act.Tick? && w.pc.AppendRefused? && w.pc.it.key == k
  }

  /** The effect is there: caused by this gate, or (not only `ours`) held outside whoever caused it. */
  ghost predicate There(c: Config, w: World, k: string, ours: bool) {
    if ours then k in w.caused else k in w.ever && D.Held(c.kind, w.ledger, w.applied, w.ever[k])
  }

  /** What is known in every reachable state. */
  ghost predicate Known(c: Config, w: World) {
    A.Inv(w) && C.Inv(w) && D.Inv(c, w) && Inv(w) && Authority.Kept(c.kind, w.ledger)
  }

  lemma ReachableKnown(c: Config, run: Run)
    requires At(c, run).Some?
    ensures Known(c, At(c, run).value)
  {
    A.ReachableInv(c, run);
    C.ReachableInv(c, run);
    D.ReachableInv(c, run);
    ReachableInv(c, run);
    Fencing.LedgerKept(c, run);
    hide At, A.Inv, C.Inv, D.Inv, Inv, Authority.Kept;
  }

  // ----- One step -----

  /** The gate causes an effect only at an intent that is clear to go ahead. */
  lemma CausesOnlyClear(c: Config, w: World, act: Action, k: string)
    requires Known(c, w) && Enabled(w, act) && k in Next(c, w, act).caused && k !in w.caused
    ensures act.Tick? && C.HasIntent(w.pc) && w.pc.it.key == k
    ensures k in w.ever && w.ever[k] == w.pc.it && C.Clear(w.snap, w.pc.it)
  {
    if act.Tick? && C.HasIntent(w.pc) {
      D.IntentTickLog(c, w);
      NextOnIntent(c, w);
      C.TrackedIntent(w);
    } else if act.ExecuteProtected? || act.ExecuteRecoverable? {
      NextRecords(c, w, act);
      hide Next, Check;
    } else {
      D.OtherStores(c, w, act);
      hide Next;
    }
    hide TickIntent, C.Backed, C.Clear, D.Inv, A.Inv, Inv;
  }

  /** Only that step writes the line. */
  lemma LineExactly(c: Config, w: World, act: Action, k: string)
    requires Known(c, w) && Enabled(w, act)
    ensures D.Logged(Next(c, w, act).log, J.Refused, k) <==> D.Logged(w.log, J.Refused, k) || Refuses(w, act, k)
  {
    var v := Next(c, w, act);
    if act.Tick? && C.HasIntent(w.pc) {
      NextOnIntent(c, w);
      D.IntentTickLog(c, w);
      hide TickIntent, D.Logged, A.Inv, C.Inv, D.Inv, Inv;
      D.StepLogged(w, v);
    } else if act.ExecuteProtected? || act.ExecuteRecoverable? {
      NextRecords(c, w, act);
      hide Next, Check;
    } else {
      D.OtherStores(c, w, act);
      hide Next;
    }
  }

  /** A refused intent is on record and not clear to go ahead. */
  lemma RefusedIsBarred(c: Config, w: World, k: string)
    requires Known(c, w) && D.Logged(w.log, J.Refused, k)
    ensures k in w.ever && !C.Clear(w.snap, w.ever[k])
  {
    hide A.Inv, C.Inv, D.Inv, NotYet, Unlogged, Named, C.Clear, D.Logged;
  }

  lemma RefusingIsBarred(c: Config, w: World, act: Action, k: string)
    requires Known(c, w) && Enabled(w, act) && Refuses(w, act, k)
    ensures k in w.ever && w.ever[k] == w.pc.it && !C.Clear(w.snap, w.pc.it)
  {
    C.TrackedIntent(w);
    hide A.Inv, D.Inv, NotYet, Unlogged, Named, C.Clear, C.Backed;
  }

  /** Causes are never forgotten. */
  lemma CausedStays(c: Config, w: World, act: Action, k: string)
    requires Enabled(w, act) && k in w.caused
    ensures k in Next(c, w, act).caused
  {
    if act.Tick? && C.HasIntent(w.pc) {
      NextOnIntent(c, w);
      hide Next, TickIntent;
      D.IntentTickLog(c, w);
    } else if act.ExecuteProtected? || act.ExecuteRecoverable? {
      NextRecords(c, w, act);
      hide Next, Check;
    } else {
      hide Next;
      D.OtherStores(c, w, act);
    }
  }

  /** Nothing this gate does causes the effect of an intent that is not clear to go ahead. */
  lemma BarredIsNotCaused(c: Config, w: World, act: Action, k: string)
    requires Known(c, w) && Enabled(w, act) && k in w.ever && !C.Clear(w.snap, w.ever[k])
    ensures k in Next(c, w, act).caused <==> k in w.caused
  {
    hide Known, Next, C.Clear;
    if k in w.caused {
      CausedStays(c, w, act, k);
    } else if k in Next(c, w, act).caused {
      CausesOnlyClear(c, w, act, k);
    }
  }

  // ----- After the line -----

  /** After its REFUSED line the gate never causes the effect. */
  lemma {:induction false} NeverCausedAfter(c: Config, early: Run, late: Run, k: string)
    requires Extends(late, early) && At(c, early).Some? && At(c, late).Some?
    requires D.Logged(At(c, early).value.log, J.Refused, k)
    ensures k in At(c, late).value.caused <==> k in At(c, early).value.caused
    ensures D.Logged(At(c, late).value.log, J.Refused, k)
  {
    if late != early {
      NeverCausedAfter(c, early, late.prior, k);
      var w := At(c, late.prior).value;
      ReachableKnown(c, late.prior);
      hide Next, Known, D.Logged, C.Clear;
      RefusedIsBarred(c, w, k);
      BarredIsNotCaused(c, w, late.act, k);
      LineExactly(c, w, late.act, k);
    }
  }

  /** Somewhere in the run the loop wrote the REFUSED line over an effect this gate had caused. */
  ghost predicate RefusedOverEffect(c: Config, run: Run, k: string) {
    && run.Do?
    && (|| RefusedOverEffect(c, run.prior, k)
        || (At(c, run.prior).Some?
            && var w := At(c, run.prior).value; Refuses(w, run.act, k) && k in w.caused))
  }

  /** A REFUSED intent has had its effect caused by this gate exactly when the line was written over it. */
  lemma {:induction false} RefusedOverEffectExactly(c: Config, run: Run, k: string)
    requires At(c, run).Some?
    ensures var w := At(c, run).value;
            D.Logged(w.log, J.Refused, k) && k in w.caused <==> RefusedOverEffect(c, run, k)
  {
    if run.Do? {
      RefusedOverEffectExactly(c, run.prior, k);
      var w := At(c, run.prior).value;
      ReachableKnown(c, run.prior);
      hide Next, Known, D.Logged, C.Clear;
      LineExactly(c, w, run.act, k);
      if D.Logged(w.log, J.Refused, k) {
        RefusedIsBarred(c, w, k);
        BarredIsNotCaused(c, w, run.act, k);
      } else if Refuses(w, run.act, k) {
        RefusingIsBarred(c, w, run.act, k);
        BarredIsNotCaused(c, w, run.act, k);
      }
    }
  }

  // ----- What the outside holds -----

  /** What the gate has caused is held, and whatever the adapter has applied the gate has caused. */
  ghost predicate Ours(c: Config, w: World) {
    && (forall k | k in w.caused :: k in w.ever && D.Held(c.kind, w.ledger, w.applied, w.ever[k]))
    && (forall k | k in w.applied :: k in w.caused)
  }

  lemma CommitCauses(c: Config, w: World, flow: Flow, it: Intent)
    requires it.outcomeKey != "" && it.idemKey == it.key
    ensures var v := CommitOutside(c, w, flow, it);
            v.caused == w.caused || (v.caused == w.caused + {it.key} && D.Held(c.kind, v.ledger, v.applied, it))
    ensures CommitOutside(c, w, flow, it).applied == w.applied
  {}

  lemma CausingTick(c: Config, w: World)
    requires C.HasIntent(w.pc) && C.CallOk(w.snap, w.issued, w.pc) && w.pc.it.idemKey == w.pc.it.key
    ensures var v := TickIntent(c, w);
            || (v.caused == w.caused && v.applied == w.applied)
            || (v.caused == w.caused + {w.pc.it.key} && D.Held(c.kind, v.ledger, v.applied, w.pc.it)
                && (v.applied == w.applied || v.applied == w.applied + [w.pc.it.key]))
  {
    if w.pc.CallCommit? {
      CommitCauses(c, w, w.pc.flow, w.pc.it);
      hide CommitOutside, D.Held, C.Clear;
    } else if w.pc.CallExecute? {
      hide CommitOutside, C.Clear, RecordOf;
    } else {
      IntentTickFrame(c, w);
      D.IntentTickLog(c, w);
      hide TickIntent, D.Held, D.LogStep, C.Clear, Settle;
    }
  }

  /** What a step may add outside: the effect of the intent it works on, and only as one that is then held. */
  ghost predicate Adds(c: Config, w: World, v: World, it: Intent) {
    && v.ever == w.ever && Authority.Evolves(w.ledger, v.ledger)
    && it.key in w.ever && w.ever[it.key] == it
    && (|| (v.caused == w.caused && v.applied == w.applied)
        || (v.caused == w.caused + {it.key} && D.Held(c.kind, v.ledger, v.applied, it)
            && (v.applied == w.applied || v.applied == w.applied + [it.key])))
  }

  lemma TickAdds(c: Config, w: World)
    requires C.Inv(w) && D.Once(w) && Authority.Kept(c.kind, w.ledger) && C.HasIntent(w.pc)
    ensures Adds(c, w, TickIntent(c, w), w.pc.it)
  {
    D.IntentStepFacts(c, w);
    hide TickIntent, D.Held, C.Ledgered, C.Queued, D.Once, D.LogStep, Successor, Settle;
    hide Authority.Kept, Authority.Evolves;
    CausingTick(c, w);
  }

  lemma AddingKeepsOurs(c: Config, w: World, v: World, it: Intent)
    requires Ours(c, w) && Adds(c, w, v, it)
    ensures Ours(c, v)
  {
    forall k | k in w.caused ensures D.Held(c.kind, v.ledger, v.applied, w.ever[k]) {
      D.HeldStays(c.kind, w.ledger, w.applied, v.ledger, v.applied, w.ever[k]);
    }
    hide D.Held, Authority.Evolves;
  }

  lemma EvolvesKeepsOurs(c: Config, w: World, v: World)
    requires Ours(c, w) && Authority.Evolves(w.ledger, v.ledger) && v.applied == w.applied && v.caused == w.caused
    requires forall k | k in w.ever :: k in v.ever && v.ever[k] == w.ever[k]
    ensures Ours(c, v)
  {
    forall k | k in w.caused ensures D.Held(c.kind, v.ledger, v.applied, w.ever[k]) {
      D.HeldStays(c.kind, w.ledger, w.applied, v.ledger, v.applied, w.ever[k]);
    }
    hide D.Held, Authority.Evolves;
  }

  lemma StepKeepsOurs(c: Config, w: World, act: Action)
    requires Known(c, w) && Enabled(w, act) && Ours(c, w)
    ensures Ours(c, Next(c, w, act))
  {
    if act.Tick? && C.HasIntent(w.pc) {
      NextOnIntent(c, w);
      TickAdds(c, w);
      hide Next, TickIntent, Known, Ours, Adds;
      AddingKeepsOurs(c, w, Next(c, w, act), w.pc.it);
    } else {
      StepKeepsIntents(c, w, act);
      Fencing.StepEvolves(c, w, act);
      hide Next, Known, Authority.Evolves, Ours;
      EvolvesKeepsOurs(c, w, Next(c, w, act));
    }
  }

  /** A step on no intent leaves effects and the intents on record alone. */
  lemma StepKeepsIntents(c: Config, w: World, act: Action)
    requires Known(c, w) && Enabled(w, act) && !(act.Tick? && C.HasIntent(w.pc))
    ensures var v := Next(c, w, act);
            && v.applied == w.applied && v.caused == w.caused
            && forall k | k in w.ever :: k in v.ever && v.ever[k] == w.ever[k]
  {
    if act.ExecuteProtected? || act.ExecuteRecoverable? {
      NextRecords(c, w, act);
      if Check(w.snap, act.bootId, act.req, Some(act.params), act.ExecuteProtected?).None? {
        RecordAdds(w, act.bootId, act.req, act.params, act.ExecuteProtected?);
      }
      hide Next, Check, Record, Known;
    } else {
      hide Next, Known;
      D.OtherStores(c, w, act);
    }
  }

  lemma RecordAdds(w: World, bootId: string, q: EffectRequest, params: string, protected: bool)
    requires C.Ledgered(w) && Genuine(w, q.cap) && Check(w.snap, bootId, q, Some(params), protected).None?
    ensures var v := Record(w, q, params, protected);
            && v.applied == w.applied && v.caused == w.caused
            && forall k | k in w.ever :: k in v.ever && v.ever[k] == w.ever[k]
  {
    C.CheckedIsAdmissible(w, bootId, q, Some(params), protected);
    hide Check, C.Ledgered, C.Requested;
    D.RecordIsFresh(w, q, params, protected);
    hide Record;
  }

  lemma {:induction false} ReachableOurs(c: Config, run: Run)
    requires At(c, run).Some?
    ensures Ours(c, At(c, run).value)
  {
    if run.Do? {
      ReachableOurs(c, run.prior);
      ReachableKnown(c, run.prior);
      hide Next, Known, Ours;
      StepKeepsOurs(c, At(c, run.prior).value, run.act);
    }
  }

  /** For an intent without an outcome key, held outside and caused by this gate are one thing. */
  lemma RefusedWhileAppliedExactly(c: Config, run: Run, k: string)
    requires At(c, run).Some? && k in At(c, run).value.ever && At(c, run).value.ever[k].outcomeKey == ""
    ensures var w := At(c, run).value;
            && (k in w.caused <==> k in w.applied)
            && (D.Logged(w.log, J.Refused, k) && k in w.applied <==> RefusedOverEffect(c, run, k))
  {
    ReachableKnown(c, run);
    ReachableOurs(c, run);
    RefusedOverEffectExactly(c, run, k);
    hide At, D.Logged, Ours, Known, RefusedOverEffect;
    AppliedIsCaused(c, At(c, run).value, k);
  }

  lemma AppliedIsCaused(c: Config, w: World, k: string)
    requires Known(c, w) && Ours(c, w) && k in w.ever && w.ever[k].outcomeKey == ""
    ensures k in w.caused <==> k in w.applied
  {
    KeyIsOwn(w, k);
    hide Known;
  }

  /** What is held stays held. */
  lemma HeldStaysThere(c: Config, w: World, act: Action, k: string)
    requires Known(c, w) && Enabled(w, act) && There(c, w, k, false)
    ensures There(c, Next(c, w, act), k, false)
  {
    StepAdds(c, w, act);
    var v := Next(c, w, act);
    hide Next, D.Held, Authority.Evolves, Known;
    D.HeldStays(c.kind, w.ledger, w.applied, v.ledger, v.applied, w.ever[k]);
  }

  /** Every step keeps the intents on record, and both external records only grow. */
  lemma StepAdds(c: Config, w: World, act: Action)
    requires Known(c, w) && Enabled(w, act)
    ensures var v := Next(c, w, act);
            && Authority.Evolves(w.ledger, v.ledger) && w.applied <= v.applied
            && forall k | k in w.ever :: k in v.ever && v.ever[k] == w.ever[k]
  {
    if act.Tick? && C.HasIntent(w.pc) {
      NextOnIntent(c, w);
      TickAdds(c, w);
      hide Next, TickIntent, D.Held, Authority.Evolves, Known;
    } else {
      Fencing.StepEvolves(c, w, act);
      hide Next, Authority.Evolves, Known;
      StepKeepsIntents(c, w, act);
    }
  }

  lemma NewlyHeld(kind: Authority.Kind, a: Authority.Ledger, applied: seq<string>, b: Authority.Ledger,
                  more: seq<string>, it: Intent)
    requires Authority.Evolves(a, b) && D.Held(kind, b, more, it) && !D.Held(kind, a, applied, it)
    ensures (it.key in b.effects && it.key !in a.effects) || (it.key in more && it.key !in applied)
  {
    hide Authority.RefusalsStand, Authority.FencesRise;
  }

  /** Nothing but a foreign request makes the outside hold the effect of an intent that is not clear to go ahead. */
  lemma BarredStaysUnheld(c: Config, run: Run, w: World, act: Action, k: string)
    requires At(c, run) == Some(w) && Enabled(w, act) && !act.Foreign?
    requires k in w.ever && !C.Clear(w.snap, w.ever[k]) && !There(c, w, k, false)
    ensures !There(c, Next(c, w, act), k, false)
  {
    var v := Next(c, w, act);
    ReachableKnown(c, run);
    ReachableOurs(c, run);
    KeyIsOwn(w, k);
    StepAdds(c, w, act);
    hide At, Next, D.Held, Authority.Evolves, Known, C.Clear;
    if There(c, v, k, false) {
      NewlyHeld(c.kind, w.ledger, w.applied, v.ledger, v.applied, w.ever[k]);
      D.CausesAreRecorded(c, run, act, k);
      BarredIsNotCaused(c, w, act, k);
      assert false;
    }
  }

  lemma KeyIsOwn(w: World, k: string)
    requires C.Inv(w) && k in w.ever
    ensures w.ever[k].key == k
  {
    hide C.Queued, C.CallOk, C.Backed;
  }

  /** The foreign request puts the effect of the intent `k` there: another client uses its key for its outcome. */
  ghost predicate Supplies(c: Config, w: World, q: Authority.Request, k: string) {
    && k in w.ever && w.ever[k].outcomeKey != ""
    && q.Commit? && q.idem == k && (c.kind.Postgres? ==> q.outcome == w.ever[k].outcomeKey)
    && Authority.Serve(c.kind, w.ledger, q).1.Ok()
  }

  lemma ForeignSupplies(c: Config, w: World, q: Authority.Request, k: string)
    requires C.Inv(w)
    ensures There(c, Next(c, w, Foreign(q)), k, false) <==> There(c, w, k, false) || Supplies(c, w, q, k)
  {
    if k in w.ever {
      KeyIsOwn(w, k);
      NextOutside(c, w, q);
      ServedHolds(c.kind, w.ledger, w.applied, q, w.ever[k]);
    }
    hide Next, D.Held, Authority.Serve, C.Inv;
  }

  lemma ServedHolds(kind: Authority.Kind, a: Authority.Ledger, applied: seq<string>, q: Authority.Request, it: Intent)
    ensures D.Held(kind, Authority.Serve(kind, a, q).0, applied, it) <==>
      || D.Held(kind, a, applied, it)
      || (it.outcomeKey != "" && q.Commit? && q.idem == it.key && (kind.Postgres? ==> q.outcome == it.outcomeKey)
          && Authority.Serve(kind, a, q).1.Ok())
  {}

  /** The REFUSED line was written while the effect was held, or another client supplied it afterwards. */
  ghost predicate HeldDespiteRefusal(c: Config, run: Run, k: string) {
    && run.Do?
    && (|| HeldDespiteRefusal(c, run.prior, k)
        || (At(c, run.prior).Some?
            && var w := At(c, run.prior).value;
               || (Refuses(w, run.act, k) && There(c, w, k, false))
               || (run.act.Foreign? && D.Logged(w.log, J.Refused, k) && Supplies(c, w, run.act.request, k))))
  }

  /** A REFUSED intent has its effect held outside exactly then. */
  lemma {:induction false} HeldDespiteRefusalExactly(c: Config, run: Run, k: string)
    requires At(c, run).Some?
    ensures var w := At(c, run).value;
            D.Logged(w.log, J.Refused, k) && There(c, w, k, false) <==> HeldDespiteRefusal(c, run, k)
  {
    if run.Do? {
      HeldDespiteRefusalExactly(c, run.prior, k);
      RefusedStep(c, run.prior, At(c, run.prior).value, run.act, k);
      hide Next, D.Logged, There, Supplies;
    }
  }

  /** What one step does to a REFUSED line over a held effect. */
  lemma RefusedStep(c: Config, run: Run, w: World, act: Action, k: string)
    requires At(c, run) == Some(w) && Enabled(w, act)
    ensures var v := Next(c, w, act);
            D.Logged(v.log, J.Refused, k) && There(c, v, k, false) <==>
              || (D.Logged(w.log, J.Refused, k) && There(c, w, k, false))
              || (Refuses(w, act, k) && There(c, w, k, false))
              || (act.Foreign? && D.Logged(w.log, J.Refused, k) && Supplies(c, w, act.request, k))
  {
    ReachableKnown(c, run);
    LineExactly(c, w, act, k);
    if act.Foreign? {
      ForeignSupplies(c, w, act.request, k);
    }
    hide At, Next, Known, D.Logged, There, Supplies, C.Clear;
    if There(c, w, k, false) {
      HeldStaysThere(c, w, act, k);
    } else if !act.Foreign? && (D.Logged(w.log, J.Refused, k) || Refuses(w, act, k)) {
      if D.Logged(w.log, J.Refused, k) {
        RefusedIsBarred(c, w, k);
      } else {
        RefusingIsBarred(c, w, act, k);
      }
      BarredStaysUnheld(c, run, w, act, k);
    }
  }

  // ----- One reconciliation -----

  /** Only the operation in progress and the adapter act, and other clients of the authority if `shared`. */
  ghost predicate Passing(late: Run, base: Run, shared: bool) {
    || late == base
    || (late.Do? && PassAct(late.act, shared) && Passing(late.prior, base, shared))
  }

  predicate PassAct(act: Action, shared: bool) {
    act.Tick? || act.Unapplied? || act.Drift? || (shared && act.Foreign?)
  }

  /** Since `base`, the loop wrote the REFUSED line for `k` over its effect. */
  ghost predicate RefusedSince(c: Config, late: Run, base: Run, k: string, ours: bool) {
    && late != base && late.Do?
    && (|| RefusedSince(c, late.prior, base, k, ours)
        || (At(c, late.prior).Some?
            && var w := At(c, late.prior).value; Refuses(w, late.act, k) && There(c, w, k, ours)))
  }

  /** The pass has journaled how it settles `x`, or gone past that. */
  predicate Past(w: World, x: Intent) {
    x !in w.snap.pending || (w.pc.DropRefused? && w.pc.it == x)
  }

  /** The pass that began in `s` is under way, or over. */
  ghost predicate During(s: Snapshot, w: World) {
    && w.snap.epoch == s.epoch && w.snap.payload == s.payload
    && (w.pc.Idle? || (Working(w.pc) && w.pc.flow.Loop?))
  }

  lemma DuringKeeps(c: Config, s: Snapshot, w: World, act: Action, shared: bool)
    requires During(s, w) && Enabled(w, act) && PassAct(act, shared)
    ensures During(s, Next(c, w, act))
  {
    if act.Tick? {
      NextOnIntent(c, w);
      hide Next, TickIntent, Settle, Examined, TakeNext, C.Clear;
      IntentTickFrame(c, w);
      IntentTickSuccessor(c, w);
      LoopGoesOn(w.snap, w.pc, TickIntent(c, w).pc);
      if C.HasIntent(w.pc) {
        C.SettleFrame(w.snap, w.pc.it.key);
      }
    } else {
      hide Authority.Serve;
    }
  }

  lemma LoopGoesOn(s: Snapshot, pc: Pc, next: Pc)
    requires Working(pc) && pc.flow.Loop? && (next.Idle? || Successor(s, pc, next))
    ensures next.Idle? || (Working(next) && next.flow.Loop?)
    ensures next.DropRefused? ==> pc.AppendRefused? && next.it == pc.it
  {
    if pc.Examine? {
      C.ExamineHandsOver(s, pc.flow, pc.it);
    }
    hide Examined, C.Clear;
  }

  /** The intent at hand is `x` exactly when their keys agree. */
  lemma SameByKey(w: World, x: Intent)
    requires C.Inv(w) && C.HasIntent(w.pc) && x.key in w.ever && w.ever[x.key] == x
    ensures w.pc.it == x <==> w.pc.it.key == x.key
    ensures w.pc.it in w.snap.pending
  {
    C.TrackedIntent(w);
    hide C.CallOk, C.Backed;
    if w.pc.flow.Loop? {
      assert w.snap.pending[0] == w.pc.it;
    }
  }

  lemma DropsExactly(c: Config, w: World, x: Intent)
    requires C.Inv(w) && (w.pc.DropRefused? || w.pc.DropCommitted?) && x.key in w.ever && w.ever[x.key] == x
    ensures Past(TickIntent(c, w), x) <==> x !in w.snap.pending || w.pc.it == x
  {
    SameByKey(w, x);
    TicksDrop(c, w);
    DroppedMembers(w.snap.pending, w.pc.it.key);
    hide TickIntent, C.Ledgered, C.Queued, C.CallOk;
  }

  /** The pass goes past an intent only by writing its REFUSED line or by dropping it as committed. */
  lemma PastExactly(c: Config, s: Snapshot, w: World, act: Action, x: Intent, shared: bool)
    requires C.Inv(w) && During(s, w) && Enabled(w, act) && PassAct(act, shared)
    requires x.key in w.ever && w.ever[x.key] == x
    ensures Past(Next(c, w, act), x) <==>
      Past(w, x) || Refuses(w, act, x.key) || (act.Tick? && w.pc.DropCommitted? && w.pc.it == x)
  {
    if act.Tick? {
      NextOnIntent(c, w);
      hide Next;
      if w.pc.DropRefused? || w.pc.DropCommitted? {
        DropsExactly(c, w, x);
        hide TickIntent, C.Inv, During;
      } else if w.pc.AppendRefused? {
        SameByKey(w, x);
        TicksLoop(c, w);
        hide TickIntent, C.Inv, During, RecordOf;
      } else {
        IntentTickFrame(c, w);
        IntentTickSuccessor(c, w);
        LoopGoesOn(w.snap, w.pc, TickIntent(c, w).pc);
        hide TickIntent, C.Inv, Successor, Settle;
      }
    } else {
      hide Authority.Serve, C.Inv, During;
    }
  }

  /** What one step of a pass does about `x`. */
  lemma PassStep(c: Config, run: Run, s: Snapshot, w: World, act: Action, x: Intent, ours: bool)
    requires At(c, run) == Some(w) && Enabled(w, act) && PassAct(act, ours) && During(s, w)
    requires x.key in w.ever && w.ever[x.key] == x
    ensures var v := Next(c, w, act);
            && During(s, v) && x.key in v.ever && v.ever[x.key] == x
            && (!C.Clear(s, x) ==> (There(c, v, x.key, ours) <==> There(c, w, x.key, ours)))
            && (!C.Clear(s, x) ==> (Past(v, x) <==> Past(w, x) || Refuses(w, act, x.key)))
    ensures Refuses(w, act, x.key) ==> !C.Clear(s, x) && !Past(w, x)
  {
    ReachableKnown(c, run);
    StepAdds(c, w, act);
    DuringKeeps(c, s, w, act, ours);
    PastExactly(c, s, w, act, x, ours);
    ClearAlike(s, w.snap, x);
    hide At, Next, There, C.Clear, Past, During;
    if !C.Clear(s, x) {
      ThereStays(c, run, w, act, x.key, ours);
      DroppingIsClear(w, act, x);
    }
    if Refuses(w, act, x.key) {
      RefusingIsBarred(c, w, act, x.key);
      RefusedIsPending(w, act, x);
    }
  }

  lemma RefusedIsPending(w: World, act: Action, x: Intent)
    requires C.Inv(w) && Refuses(w, act, x.key) && x.key in w.ever && w.ever[x.key] == x
    ensures !Past(w, x)
  {
    SameByKey(w, x);
    hide C.Inv;
  }

  lemma DroppingIsClear(w: World, act: Action, x: Intent)
    requires C.Inv(w) && !C.Clear(w.snap, x)
    ensures !(act.Tick? && w.pc.DropCommitted? && w.pc.it == x)
  {
    hide C.Ledgered, C.Queued, C.Clear;
  }

  lemma ThereStays(c: Config, run: Run, w: World, act: Action, k: string, ours: bool)
    requires At(c, run) == Some(w) && Enabled(w, act) && PassAct(act, ours)
    requires k in w.ever && !C.Clear(w.snap, w.ever[k])
    ensures There(c, Next(c, w, act), k, ours) <==> There(c, w, k, ours)
  {
    ReachableKnown(c, run);
    hide At, Next, Known, C.Clear, D.Held;
    if ours {
      BarredIsNotCaused(c, w, act, k);
    } else if There(c, w, k, false) {
      HeldStaysThere(c, w, act, k);
    } else {
      BarredStaysUnheld(c, run, w, act, k);
    }
  }

  lemma PassBegins(c: Config, run: Run, w: World, provided: map<string, string>, x: Intent, ours: bool)
    requires At(c, run) == Some(w) && w.pc.Idle? && x in w.snap.pending
    ensures At(c, Do(run, Reconcile(provided))).Some?
    ensures var v := At(c, Do(run, Reconcile(provided))).value;
            && During(w.snap, v) && x.key in v.ever && v.ever[x.key] == x && !Past(v, x)
            && (There(c, v, x.key, ours) <==> There(c, w, x.key, ours))
  {
    C.ReachableInv(c, run);
    NextReconciles(c, w, provided);
    hide At, Next, J.Fold, C.Queued, C.CallOk, C.Backed, D.Held;
    AtDo(c, run, Reconcile(provided), w);
  }

  lemma {:induction false} PassRuns(c: Config, run: Run, w: World, provided: map<string, string>, late: Run, x: Intent,
                                    ours: bool)
    requires At(c, run) == Some(w) && w.pc.Idle? && x in w.snap.pending
    requires Passing(late, Do(run, Reconcile(provided)), ours) && At(c, late).Some?
    ensures var v := At(c, late).value;
            && During(w.snap, v) && x.key in v.ever && v.ever[x.key] == x
            && (!C.Clear(w.snap, x) ==> (There(c, v, x.key, ours) <==> There(c, w, x.key, ours)))
            && (RefusedSince(c, late, Do(run, Reconcile(provided)), x.key, ours) <==>
                  !C.Clear(w.snap, x) && There(c, w, x.key, ours) && Past(v, x))
  {
    var base := Do(run, Reconcile(provided));
    if late == base {
      PassBegins(c, run, w, provided, x, ours);
      hide At, During, Past, There, C.Clear;
    } else {
      PassRuns(c, run, w, provided, late.prior, x, ours);
      var m := At(c, late.prior).value;
      hide Next, During, Past, There, C.Clear;
      PassStep(c, late.prior, w.snap, m, late.act, x, ours);
    }
  }

  /**
   Which REFUSED lines a reconciliation writes over an effect, seen before the call. For each pending intent the
   pass gets to: exactly those of intents that are not clear to go ahead and whose effect is there when the call
   begins, be it one this gate has caused, whatever other clients do meanwhile, or one held outside at all, if no
   other client acts.
   */
  lemma RefusesOverEffectExactly(c: Config, run: Run, provided: map<string, string>, late: Run, x: Intent, ours: bool)
    requires At(c, run).Some? && At(c, run).value.pc.Idle? && x in At(c, run).value.snap.pending
    requires Passing(late, Do(run, Reconcile(provided)), ours) && At(c, late).Some?
    requires Past(At(c, late).value, x)
    ensures var w := At(c, run).value;
            RefusedSince(c, late, Do(run, Reconcile(provided)), x.key, ours) <==>
              !C.Clear(w.snap, x) && There(c, w, x.key, ours)
  {
    PassRuns(c, run, At(c, run).value, provided, late, x, ours);
    hide At, Past, There, C.Clear, During, RefusedSince, Passing;
  }
}
