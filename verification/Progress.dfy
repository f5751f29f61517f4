/** What the calls achieve when nobody interferes: exactly when they complete, and what they leave behind. */
module Progress {
  import opened Base
  import opened Durable
  import opened Protocol
  import opened Steps
  import J = Journal
  import C = Calls
  import D = Delivery
  import Authority

  /** The run continued by `n` steps of the operation in progress. */
  function Ticks(run: Run, n: nat): Run {
    if n == 0 then run else Do(Ticks(run, n - 1), Tick)
  }

  /** The steps left before the call returns or raises: it gives up at the first question that goes against it. */
  function StepsLeft(kind: Authority.Kind, a: Authority.Ledger, it: Intent): nat {
    if it.outcomeKey in a.refusals then 2
    else if a.Fence(it.outcomeKey) != it.epoch then 3
    else if !Accepts(kind, a, it) then 4
    else 6
  }

  predicate Accepts(kind: Authority.Kind, a: Authority.Ledger, it: Intent) {
    Authority.Serve(kind, a, Authority.Commit(it.outcomeKey, it.epoch, it.idemKey)).1.Ok()
  }

  /** The world after `n` steps of an undisturbed protected call that stands before its PREPARED line. */
  ghost function Undisturbed(c: Config, w: World, it: Intent, before: seq<Intent>, n: nat): World
    requires n <= StepsLeft(c.kind, w.ledger, it)
  {
    var logged := w.(log := w.log + [RecordOf(J.Prepared, it)]);
    var done := StepsLeft(c.kind, w.ledger, it);
    var committed := logged.(
      ledger := Authority.Serve(c.kind, w.ledger, Authority.Commit(it.outcomeKey, it.epoch, it.idemKey)).0,
      caused := CommitOutside(c, w, Direct, it).caused);
    if n == 0 then w
    else if n == done && n < 6 then logged.(pc := Idle)
    else if n == 1 then logged.(pc := AskRefused(Direct, it))
    else if n == 2 then logged.(pc := AskFence(Direct, it))
    else if n == 3 then logged.(pc := CallCommit(Direct, it))
    else if n == 4 then committed.(pc := AppendCommitted(Direct, it))
    else
      var journaled := committed.(log := logged.log + [RecordOf(J.Committed, it)]);
      if n == 5 then journaled.(pc := DropCommitted(Direct, it))
      else journaled.(
        snap := w.snap.(sequence := w.snap.sequence + 1, pending := before), pc := Idle)
  }

  ghost predicate Poised(w: World, it: Intent, before: seq<Intent>) {
    w.pc == AppendPrepared(Direct, it) && it.outcomeKey != "" && w.snap.pending == before + [it]
  }

  lemma AskingStep(c: Config, w: World, it: Intent, before: seq<Intent>, n: nat)
    requires Poised(w, it, before) && n < StepsLeft(c.kind, w.ledger, it) && n < 4
    ensures var v := Undisturbed(c, w, it, before, n);
            Working(v.pc) && TickIntent(c, v) == Undisturbed(c, w, it, before, n + 1)
  {
    var v := Undisturbed(c, w, it, before, n);
    hide TickIntent, RecordOf, Authority.Serve, CommitOutside;
    if n == 0 {
      TicksDirect(c, v);
    } else if n < 3 {
      TicksProtected(c, v);
    } else {
      CommittingStep(c, w, it, before);
    }
  }

  lemma CommittingStep(c: Config, w: World, it: Intent, before: seq<Intent>)
    requires Poised(w, it, before) && 3 < StepsLeft(c.kind, w.ledger, it)
    ensures TickIntent(c, Undisturbed(c, w, it, before, 3)) == Undisturbed(c, w, it, before, 4)
  {
    var v := Undisturbed(c, w, it, before, 3);
    hide TickIntent, RecordOf, Authority.Serve, CommitOutside;
    TicksProtected(c, v);
    OutsideCommit(c, v, Direct, it);
    OutsideCommit(c, w, Direct, it);
    SameCause(c, w, v, it);
    RejectedLeavesAll(c.kind, w.ledger, Authority.Commit(it.outcomeKey, it.epoch, it.idemKey));
    RejectedCausesNothing(c, w, it);
  }

  lemma RejectedLeavesAll(kind: Authority.Kind, a: Authority.Ledger, q: Authority.Request)
    ensures !Authority.Serve(kind, a, q).1.Ok() ==> Authority.Serve(kind, a, q).0 == a
  {}

  lemma RejectedCausesNothing(c: Config, w: World, it: Intent)
    ensures Authority.Serve(c.kind, w.ledger, Authority.Commit(it.outcomeKey, it.epoch, it.idemKey)).0 == w.ledger ==>
      CommitOutside(c, w, Direct, it).caused == w.caused
  {
    hide Authority.Serve;
  }

  lemma SameCause(c: Config, w: World, v: World, it: Intent)
    requires v.ledger == w.ledger && v.caused == w.caused
    ensures CommitOutside(c, v, Direct, it).caused == CommitOutside(c, w, Direct, it).caused
  {
    hide Authority.Serve;
  }

  lemma JournalingStep(c: Config, w: World, it: Intent, before: seq<Intent>)
    requires Poised(w, it, before) && StepsLeft(c.kind, w.ledger, it) == 6
    ensures TickIntent(c, Undisturbed(c, w, it, before, 4)) == Undisturbed(c, w, it, before, 5)
  {
    TicksDirect(c, Undisturbed(c, w, it, before, 4));
    hide TickIntent, RecordOf, Authority.Serve, CommitOutside;
  }

  lemma DroppingStep(c: Config, w: World, it: Intent, before: seq<Intent>)
    requires Poised(w, it, before) && StepsLeft(c.kind, w.ledger, it) == 6 && DistinctKeys(before + [it])
    requires var v := Undisturbed(c, w, it, before, 5); C.CallOk(v.snap, v.issued, v.pc)
    ensures TickIntent(c, Undisturbed(c, w, it, before, 5)) == Undisturbed(c, w, it, before, 6)
  {
    DroppedLast(before, it);
    hide TickIntent, RecordOf, Authority.Serve, CommitOutside, C.CallOk, Dropped, DistinctKeys;
    TicksDrop(c, Undisturbed(c, w, it, before, 5));
  }

  lemma FinishingStep(c: Config, w: World, it: Intent, before: seq<Intent>, n: nat)
    requires Poised(w, it, before) && StepsLeft(c.kind, w.ledger, it) == 6 && 4 <= n < 6 && DistinctKeys(before + [it])
    requires var v := Undisturbed(c, w, it, before, n); C.CallOk(v.snap, v.issued, v.pc)
    ensures var v := Undisturbed(c, w, it, before, n);
            Working(v.pc) && TickIntent(c, v) == Undisturbed(c, w, it, before, n + 1)
  {
    assert Working(Undisturbed(c, w, it, before, n).pc);
    hide TickIntent, Undisturbed, Authority.Serve, CommitOutside, C.CallOk, DistinctKeys, Poised;
    if n == 4 {
      JournalingStep(c, w, it, before);
    } else {
      DroppingStep(c, w, it, before);
    }
  }

  lemma {:induction false} UndisturbedRun(c: Config, run: Run, w: World, it: Intent, before: seq<Intent>, n: nat)
    requires At(c, run) == Some(w) && Poised(w, it, before) && n <= StepsLeft(c.kind, w.ledger, it)
    ensures At(c, Ticks(run, n)) == Some(Undisturbed(c, w, it, before, n))
  {
    if n > 0 {
      UndisturbedRun(c, run, w, it, before, n - 1);
      DistinctInRun(c, run);
      C.ReachableInv(c, Ticks(run, n - 1));
      hide At, Undisturbed, TickIntent, C.Ledgered, C.Queued, C.CallOk, DistinctKeys, Authority.Serve;
      if n <= 4 {
        AskingStep(c, w, it, before, n - 1);
      } else {
        FinishingStep(c, w, it, before, n - 1);
      }
      AtTick(c, Ticks(run, n - 1), Undisturbed(c, w, it, before, n - 1));
    }
  }

  /**
   A protected call that nobody disturbs completes exactly when the authority would accept its commit: then the
   effect is held, journaled and no longer pending. Otherwise it gives up with only its PREPARED line written,
   the authority unchanged and the intent still pending.
   */
  lemma ProtectedCompletesExactly(c: Config, run: Run, w: World, it: Intent, before: seq<Intent>)
    requires At(c, run) == Some(w) && Poised(w, it, before)
    ensures var end := At(c, Ticks(run, StepsLeft(c.kind, w.ledger, it)));
            && end.Some? && end.value.pc.Idle?
            && var v := end.value;
               if Accepts(c.kind, w.ledger, it) then
                 && it.idemKey in v.ledger.effects
                 && v.log == w.log + [RecordOf(J.Prepared, it)] + [RecordOf(J.Committed, it)]
                 && v.snap == w.snap.(sequence := w.snap.sequence + 1, pending := before)
               else
                 && v.ledger == w.ledger
                 && v.log == w.log + [RecordOf(J.Prepared, it)]
                 && v.snap == w.snap
  {
    UndisturbedRun(c, run, w, it, before, StepsLeft(c.kind, w.ledger, it));
    AcceptsAfterAsking(c.kind, w.ledger, it);
    hide At, RecordOf, Authority.Serve, CommitOutside, Accepts;
  }

  lemma AcceptsAfterAsking(kind: Authority.Kind, a: Authority.Ledger, it: Intent)
    ensures Accepts(kind, a, it) <==> StepsLeft(kind, a, it) == 6
    ensures Accepts(kind, a, it) ==>
      it.idemKey in Authority.Serve(kind, a, Authority.Commit(it.outcomeKey, it.epoch, it.idemKey)).0.effects
  {}

  // ----- The recoverable call -----

  ghost predicate PoisedRecoverable(w: World, it: Intent, before: seq<Intent>) {
    w.pc == AppendPrepared(Direct, it) && it.outcomeKey == "" && w.snap.pending == before + [it]
  }

  /** The world after `n` steps of an undisturbed recoverable call whose `execute` applies. */
  ghost function Executing(w: World, it: Intent, before: seq<Intent>, n: nat): World
    requires n <= 5
  {
    var logged := w.(log := w.log + [RecordOf(J.Prepared, it)]);
    var held := logged.(applied := w.applied + [it.idemKey], caused := w.caused + {it.key});
    var journaled := held.(log := logged.log + [RecordOf(J.Committed, it)]);
    if n == 0 then w
    else if n == 1 then logged.(pc := CallExecute(Direct, it))
    else if n == 2 then held.(pc := Confirm(Direct, it))
    else if n == 3 then held.(pc := AppendCommitted(Direct, it))
    else if n == 4 then journaled.(pc := DropCommitted(Direct, it))
    else journaled.(snap := w.snap.(sequence := w.snap.sequence + 1, pending := before), pc := Idle)
  }

  lemma ExecutingLines(c: Config, w: World, it: Intent, before: seq<Intent>, n: nat)
    requires PoisedRecoverable(w, it, before) && (n == 0 || n == 3)
    ensures TickIntent(c, Executing(w, it, before, n)) == Executing(w, it, before, n + 1)
  {
    TicksDirect(c, Executing(w, it, before, n));
    hide TickIntent, RecordOf;
  }

  lemma ExecutingCalls(c: Config, w: World, it: Intent, before: seq<Intent>, n: nat)
    requires PoisedRecoverable(w, it, before) && (n == 1 || n == 2)
    ensures TickIntent(c, Executing(w, it, before, n)) == Executing(w, it, before, n + 1)
  {
    TicksRecoverable(c, Executing(w, it, before, n));
    hide TickIntent, RecordOf;
  }

  lemma ExecutingEnds(c: Config, w: World, it: Intent, before: seq<Intent>)
    requires PoisedRecoverable(w, it, before) && DistinctKeys(before + [it])
    requires var v := Executing(w, it, before, 4); C.CallOk(v.snap, v.issued, v.pc)
    ensures TickIntent(c, Executing(w, it, before, 4)) == Executing(w, it, before, 5)
  {
    DroppedLast(before, it);
    hide TickIntent, RecordOf, C.CallOk, Dropped, DistinctKeys;
    TicksDrop(c, Executing(w, it, before, 4));
  }

  lemma ExecutingStep(c: Config, w: World, it: Intent, before: seq<Intent>, n: nat)
    requires PoisedRecoverable(w, it, before) && n < 5 && DistinctKeys(before + [it])
    requires var v := Executing(w, it, before, n); C.CallOk(v.snap, v.issued, v.pc)
    ensures var v := Executing(w, it, before, n);
            Working(v.pc) && TickIntent(c, v) == Executing(w, it, before, n + 1)
  {
    assert Working(Executing(w, it, before, n).pc);
    hide TickIntent, Executing, C.CallOk, DistinctKeys, PoisedRecoverable;
    if n == 0 || n == 3 {
      ExecutingLines(c, w, it, before, n);
    } else if n == 4 {
      ExecutingEnds(c, w, it, before);
    } else {
      ExecutingCalls(c, w, it, before, n);
    }
  }

  lemma {:induction false} ExecutingRun(c: Config, run: Run, w: World, it: Intent, before: seq<Intent>, n: nat)
    requires At(c, run) == Some(w) && PoisedRecoverable(w, it, before) && n <= 5
    ensures At(c, Ticks(run, n)) == Some(Executing(w, it, before, n))
  {
    if n > 0 {
      ExecutingRun(c, run, w, it, before, n - 1);
      DistinctInRun(c, run);
      C.ReachableInv(c, Ticks(run, n - 1));
      hide At, Executing, TickIntent, C.Ledgered, C.Queued, C.CallOk, DistinctKeys;
      ExecutingStep(c, w, it, before, n - 1);
      AtTick(c, Ticks(run, n - 1), Executing(w, it, before, n - 1));
    }
  }

  lemma NotReported(w: World)
    requires D.Once(w) && w.pc.CallExecute? && w.pc.it.idemKey == w.pc.it.key
    ensures !Reported(w.applied, w.statuses, w.pc.it.idemKey).Committed?
  {}

  lemma OwnIdemKey(c: Config, run: Run, w: World)
    requires At(c, run) == Some(w) && C.HasIntent(w.pc)
    ensures w.pc.it.idemKey == w.pc.it.key && D.Once(w)
  {
    C.ReachableInv(c, run);
    D.ReachableInv(c, run);
    C.TrackedIntent(w);
    hide At, C.Queued, C.CallOk, C.Backed, D.Once, D.Accounted, D.Honest, D.Announced, D.Loaded, D.Restates;
  }

  /** An `execute` that applies nothing is found out: its key was not applied before either. */
  lemma UnappliedGivesUp(c: Config, run: Run, w: World)
    requires At(c, run) == Some(w) && w.pc.CallExecute?
    ensures At(c, Do(Do(run, Unapplied), Tick)) == Some(w.(pc := Idle))
  {
    OwnIdemKey(c, run, w);
    NotReported(w);
    NextUnapplied(c, w);
    var w1 := w.(pc := Confirm(w.pc.flow, w.pc.it));
    TicksRecoverable(c, w1);
    hide At, Next, TickIntent, D.Once, Reported;
    AtDo(c, run, Unapplied, w);
    AtTick(c, Do(run, Unapplied), w1);
  }

  /** The run of the call: five steps, or `execute` applies nothing after the first and is found out after one more. */
  function RecoverableRun(run: Run, applies: bool): Run {
    var own := Ticks(run, if applies then 5 else 1);
    if applies then own else Do(Do(own, Unapplied), Tick)
  }

  /**
   A recoverable call that nobody disturbs completes exactly when the adapter's `execute` applies: then the
   effect is held, journaled and no longer pending. Otherwise it gives up with only its PREPARED line written
   and the intent still pending.
   */
  lemma RecoverableCompletesExactly(c: Config, run: Run, w: World, it: Intent, before: seq<Intent>, applies: bool)
    requires At(c, run) == Some(w) && PoisedRecoverable(w, it, before)
    ensures var end := At(c, RecoverableRun(run, applies));
            && end.Some? && end.value.pc.Idle?
            && var v := end.value;
               if applies then
                 && v.applied == w.applied + [it.idemKey]
                 && v.log == w.log + [RecordOf(J.Prepared, it)] + [RecordOf(J.Committed, it)]
                 && v.snap == w.snap.(sequence := w.snap.sequence + 1, pending := before)
               else
                 && v.applied == w.applied && v.log == w.log + [RecordOf(J.Prepared, it)] && v.snap == w.snap
  {
    if applies {
      ExecutingRun(c, run, w, it, before, 5);
    } else {
      ExecutingRun(c, run, w, it, before, 1);
      UnappliedGivesUp(c, Ticks(run, 1), Executing(w, it, before, 1));
    }
    hide At, RecordOf, Ticks;
  }
}
