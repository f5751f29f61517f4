/** Agreement of the local store, the journal and the external systems in every crashing run. */
module Delivery {
  import opened Base
  import opened Durable
  import opened Kernel
  import opened Gate
  import opened Protocol
  import Journal
  import Authority
  import Fencing
  import R = Refusal
  import A = Authorisation
  import C = Calls

  ghost predicate Logged(log: seq<Journal.Record>, status: Journal.Status, key: string) {
    exists r :: r in log && r.key == key && r.status == status
  }

  ghost predicate Terminal(log: seq<Journal.Record>, key: string) {
    Logged(log, Journal.Committed, key) || Logged(log, Journal.Refused, key)
  }

  /** The external system that executes this intent holds its effect. */
  ghost predicate Held(kind: Authority.Kind, ledger: Authority.Ledger, applied: seq<string>, it: Intent) {
    if it.outcomeKey == "" then it.key in applied
    else
      && it.key in ledger.effects
      && (kind.Postgres? ==> ledger.effects[it.key].outcome == it.outcomeKey)
  }

  // ----- The invariants -----

  /** Every journal line restates an intent on record. */
  ghost predicate Restates(log: seq<Journal.Record>, ever: map<string, Intent>) {
    forall r | r in log :: r.key in ever && !r.status.Other? && r == RecordOf(r.status, ever[r.key])
  }

  predicate AboutToApply(pc: Pc) {
    pc.CallExecute? || (pc.AppendPrepared? && pc.flow.Direct? && pc.it.outcomeKey == "")
  }

  /** The recoverable adapter has applied each key at most once, and only keys on record. */
  ghost predicate Once(w: World) {
    && (forall i, j | 0 <= i < j < |w.applied| :: w.applied[i] != w.applied[j])
    && (forall k | k in w.applied :: k in w.ever)
    && (AboutToApply(w.pc) ==> w.pc.it.key !in w.applied)
  }

  /** What the journal calls committed is held outside. */
  ghost predicate Honest(c: Config, w: World) {
    && (forall k | Logged(w.log, Journal.Committed, k) :: k in w.ever && Held(c.kind, w.ledger, w.applied, w.ever[k]))
    && (w.pc.AppendCommitted? || w.pc.DropCommitted? ==> Held(c.kind, w.ledger, w.applied, w.pc.it))
  }

  /** The steps after an intent's PREPARED line. */
  predicate AfterPrepared(pc: Pc) {
    C.HasIntent(pc) && !pc.AppendPrepared?
  }

  /** Write-ahead, leaving: an intent leaves the store only after its terminal line. */
  ghost predicate Accounted(w: World) {
    && (forall k | k in w.ever :: k in Keys(w.snap.pending) || Terminal(w.log, k))
    && (w.pc.DropCommitted? || w.pc.DropRefused? ==> Terminal(w.log, w.pc.it.key))
  }

  /** Write-ahead, acting: the gate acts on an intent only after its PREPARED line. */
  ghost predicate Announced(w: World) {
    && (forall k | k in w.caused :: k in w.ever && Logged(w.log, Journal.Prepared, k))
    && (AfterPrepared(w.pc) ==> Logged(w.log, Journal.Prepared, w.pc.it.key))
  }

  /** The records the loop works from were all announced. */
  ghost predicate Loaded(w: World) {
    Working(w.pc) && w.pc.flow.Loop? ==> forall k | k in w.pc.flow.records :: Logged(w.log, Journal.Prepared, k)
  }

  ghost predicate Inv(c: Config, w: World) {
    Restates(w.log, w.ever) && Once(w) && Honest(c, w) && Accounted(w) && Announced(w) && Loaded(w)
  }

  // ----- Steps on an intent -----

  lemma LoggedGrows(log: seq<Journal.Record>, r: Journal.Record)
    ensures forall status, key :: Logged(log + [r], status, key) <==>
      Logged(log, status, key) || (r.status == status && r.key == key)
  {
    forall status, key
      ensures Logged(log + [r], status, key) <==> Logged(log, status, key) || (r.status == status && r.key == key)
    {
      if Logged(log, status, key) {
        var x :| x in log && x.key == key && x.status == status;
        assert x in log + [r];
      }
      if r.status == status && r.key == key {
        assert (log + [r])[|log|] == r;
      }
    }
  }

  /** The line a step appends, if it is an appending step. */
  function LineOf(pc: Pc): Journal.Status
    requires C.HasIntent(pc)
  {
    if pc.AppendPrepared? then Journal.Prepared
    else if pc.AppendCommitted? then Journal.Committed
    else Journal.Refused
  }

  predicate Appends(pc: Pc) {
    pc.AppendPrepared? || pc.AppendCommitted? || pc.AppendRefused?
  }

  ghost predicate LogStep(w: World, v: World) {
    || v.log == w.log
    || (Appends(w.pc) && v.log == w.log + [RecordOf(LineOf(w.pc), w.pc.it)])
  }

  lemma PrepareLog(w: World)
    requires w.pc.AppendPrepared?
    ensures var v := Prepare(w, w.pc.flow, w.pc.it);
            && v.log == w.log + [RecordOf(Journal.Prepared, w.pc.it)] && v.caused == w.caused
            && (v.pc.Examine? ==> Journal.Fold(v.log) == Some(v.pc.flow.records))
  {
    hide RecordOf, Journal.Fold;
  }

  /** In the loop, control goes on with the journal just read. */
  ghost predicate Reloaded(v: World) {
    v.pc.DropCommitted? && v.pc.flow.Loop? ==> Journal.Fold(v.log) == Some(v.pc.flow.records)
  }

  /** Without a new line, the journal already called the intent committed. */
  ghost predicate SaidCommitted(v: World, key: string) {
    v.pc.DropCommitted? ==>
      && Journal.Fold(v.log).Some? && key in Journal.Fold(v.log).value
      && Journal.Fold(v.log).value[key].status.Committed?
  }

  lemma CommittedLog(w: World)
    requires w.pc.AppendCommitted?
    ensures var v := JournalCommitted(w, w.pc.flow, w.pc.it); LogStep(w, v) && v.caused == w.caused
  {
    hide RecordOf, Journal.Fold;
  }

  lemma CommittedReloads(w: World)
    requires w.pc.AppendCommitted?
    ensures Reloaded(JournalCommitted(w, w.pc.flow, w.pc.it))
  {
    hide RecordOf, Journal.Fold;
  }

  lemma CommittedSilently(w: World)
    requires w.pc.AppendCommitted?
    ensures var v := JournalCommitted(w, w.pc.flow, w.pc.it); v.log == w.log ==> SaidCommitted(v, w.pc.it.key)
  {
    assert |w.log + [RecordOf(Journal.Committed, w.pc.it)]| == |w.log| + 1;
    hide RecordOf, Journal.Fold;
  }

  lemma IntentTickLog(c: Config, w: World)
    requires C.HasIntent(w.pc)
    ensures var v := TickIntent(c, w);
            && LogStep(w, v)
            && (w.pc.AppendPrepared? || w.pc.AppendRefused? ==> v.log != w.log)
            && (v.caused == w.caused || ((w.pc.CallCommit? || w.pc.CallExecute?) && v.caused == w.caused + {w.pc.it.key}))
  {
    hide RecordOf, Prepare, JournalCommitted, Authority.Serve, Examined, StatusOf, TakeNext, Settle, IsRefused;
    if w.pc.AppendPrepared? {
      PrepareLog(w);
    } else if w.pc.AppendCommitted? {
      CommittedLog(w);
    }
  }

  lemma CommitOkHolds(kind: Authority.Kind, a: Authority.Ledger, it: Intent)
    requires Authority.Serve(kind, a, Authority.Commit(it.outcomeKey, it.epoch, it.key)).1.Ok()
    ensures it.outcomeKey != "" ==>
      Held(kind, Authority.Serve(kind, a, Authority.Commit(it.outcomeKey, it.epoch, it.key)).0, [], it)
  {}

  /** Control reaches the COMMITTED line only when the effect is held outside. */
  lemma IntentTickHolds(c: Config, w: World)
    requires C.Fenced(w.pc) || C.Unfenced(w.pc)
    requires C.CallOk(w.snap, w.issued, w.pc) && w.pc.it.idemKey == w.pc.it.key
    ensures var v := TickIntent(c, w);
            v.pc.AppendCommitted? ==> v.pc.it == w.pc.it && Held(c.kind, v.ledger, v.applied, v.pc.it)
    ensures var v := TickIntent(c, w);
            v.pc.CallExecute? ==> v.pc.it == w.pc.it && v.pc.it.key !in v.applied
  {
    hide Prepare, JournalCommitted, FinishCommitted, Examined, TakeNext, Settle, Authority.Serve, C.Clear;
    if w.pc.CallCommit? && TickIntent(c, w).pc.AppendCommitted? {
      CommitOkHolds(c.kind, w.ledger, w.pc.it);
    }
  }

  lemma HeldStays(kind: Authority.Kind, a: Authority.Ledger, applied: seq<string>, b: Authority.Ledger,
                  more: seq<string>, it: Intent)
    requires Held(kind, a, applied, it) && Authority.Evolves(a, b) && applied <= more
    ensures Held(kind, b, more, it)
  {
    hide Authority.RefusalsStand, Authority.FencesRise;
  }

  lemma FoldPrepared(log: seq<Journal.Record>)
    requires Journal.Fold(log).Some?
    ensures forall k | k in Journal.Fold(log).value :: Logged(log, Journal.Prepared, k)
  {
    Journal.FoldAccepts(log);
    forall k | k in Journal.Fold(log).value ensures Logged(log, Journal.Prepared, k) {
      var p := Journal.Projection(log, k);
      assert Journal.Lifecycle(p) && p != [];
      Journal.ProjectionIsIn(log, k, 0);
      Journal.ProjectionKeys(log, k);
    }
  }

  lemma FoldLast(log: seq<Journal.Record>, k: string)
    requires Journal.Fold(log).Some? && k in Journal.Fold(log).value
    ensures Logged(log, Journal.Fold(log).value[k].status, k)
  {
    Journal.FoldAccepts(log);
    var p := Journal.Projection(log, k);
    assert Get(Journal.Fold(log).value, k) == if p == [] then None else Some(p[|p| - 1]);
    Journal.ProjectionIsIn(log, k, |p| - 1);
    Journal.ProjectionKeys(log, k);
  }

  lemma RestatesGrows(log: seq<Journal.Record>, ever: map<string, Intent>, status: Journal.Status, it: Intent)
    requires Restates(log, ever) && it.key in ever && ever[it.key] == it && !status.Other?
    ensures Restates(log + [RecordOf(status, it)], ever)
  {}

  /** The facts about one step on an intent that the invariants below need. */
  ghost predicate IntentStep(c: Config, w: World, v: World) {
    && C.HasIntent(w.pc) && IntentFrame(w, v) && LogStep(w, v)
    && (v.pc.Idle? || Successor(w.snap, w.pc, v.pc))
    && w.pc.it.key in w.ever && w.ever[w.pc.it.key] == w.pc.it && w.pc.it.idemKey == w.pc.it.key
    && Authority.Evolves(w.ledger, v.ledger)
    && (v.caused == w.caused || ((w.pc.CallCommit? || w.pc.CallExecute?) && v.caused == w.caused + {w.pc.it.key}))
    && (v.pc.AppendCommitted? ==> v.pc.it == w.pc.it && Held(c.kind, v.ledger, v.applied, v.pc.it))
    && (v.pc.CallExecute? ==> v.pc.it == w.pc.it && v.pc.it.key !in v.applied)
    && (w.pc.AppendPrepared? || w.pc.AppendRefused? ==> v.log != w.log)
    && (v.pc.DropCommitted? ==> Logged(v.log, Journal.Committed, v.pc.it.key))
    && (Working(v.pc) && v.pc.flow.Loop? ==>
          v.pc.flow.records == w.pc.flow.records || Journal.Fold(v.log) == Some(v.pc.flow.records))
  }

  lemma OnceKeeps(c: Config, w: World, v: World)
    requires IntentStep(c, w, v) && Once(w)
    ensures Once(v)
  {
    if w.pc.Examine? {
      C.ExamineHandsOver(w.snap, w.pc.flow, w.pc.it);
    }
    hide LogStep, Settle, Examined, TakeNext, Held, Authority.Evolves;
  }

  lemma HonestKeeps(c: Config, w: World, v: World)
    requires IntentStep(c, w, v) && Honest(c, w)
    ensures Honest(c, v)
  {
    assert w.applied <= v.applied;
    forall k | Logged(v.log, Journal.Committed, k) ensures k in v.ever && Held(c.kind, v.ledger, v.applied, v.ever[k]) {
      if v.log != w.log {
        LoggedGrows(w.log, RecordOf(LineOf(w.pc), w.pc.it));
      }
      HeldStays(c.kind, w.ledger, w.applied, v.ledger, v.applied, w.ever[k]);
    }
    if w.pc.AppendCommitted? {
      HeldStays(c.kind, w.ledger, w.applied, v.ledger, v.applied, w.pc.it);
    }
    hide Held, Examined, TakeNext, Settle, Authority.Evolves;
  }

  lemma SettledKeys(s: Snapshot, key: string)
    ensures forall k | k in Keys(s.pending) && k != key :: k in Keys(Settle(s, key).pending)
  {
    DroppedMembers(s.pending, key);
    forall k | k in Keys(s.pending) && k != key ensures k in Keys(Settle(s, key).pending) {
      var it :| it in s.pending && it.key == k;
      assert it in Settle(s, key).pending;
    }
  }

  lemma StepLogged(w: World, v: World)
    requires C.HasIntent(w.pc) && LogStep(w, v)
    ensures forall status, key :: Logged(v.log, status, key) <==>
      Logged(w.log, status, key) || (v.log != w.log && status == LineOf(w.pc) && key == w.pc.it.key)
  {
    if v.log != w.log {
      LoggedGrows(w.log, RecordOf(LineOf(w.pc), w.pc.it));
      hide Logged;
    }
  }

  lemma AccountedKeeps(c: Config, w: World, v: World)
    requires IntentStep(c, w, v) && Accounted(w)
    ensures Accounted(v)
  {
    StepLogged(w, v);
    SettledKeys(w.snap, w.pc.it.key);
    if w.pc.Examine? {
      C.ExamineHandsOver(w.snap, w.pc.flow, w.pc.it);
    }
    hide Logged, LogStep, Settle, Examined, TakeNext, Held, Authority.Evolves, Keys;
  }

  lemma AnnouncedKeeps(c: Config, w: World, v: World)
    requires IntentStep(c, w, v) && Announced(w)
    ensures Announced(v)
  {
    StepLogged(w, v);
    if w.pc.Examine? {
      C.ExamineHandsOver(w.snap, w.pc.flow, w.pc.it);
    }
    hide Logged, LogStep, Settle, Examined, TakeNext, Held, Authority.Evolves;
  }

  lemma LoadedKeeps(c: Config, w: World, v: World)
    requires IntentStep(c, w, v) && Loaded(w) && (Working(v.pc) ==> w.pc.flow.Loop? == v.pc.flow.Loop?)
    ensures Loaded(v)
  {
    StepLogged(w, v);
    if Working(v.pc) && v.pc.flow.Loop? && Journal.Fold(v.log) == Some(v.pc.flow.records) {
      FoldPrepared(v.log);
    }
    hide Logged, LogStep, Settle, Successor, Held, Authority.Evolves;
  }

  lemma IntentEvolves(c: Config, w: World)
    requires Working(w.pc) && Authority.Kept(c.kind, w.ledger)
    ensures Authority.Evolves(w.ledger, TickIntent(c, w).ledger)
  {
    Fencing.IntentLedger(c, w);
    hide TickIntent, Authority.Serve, Authority.Evolves;
    var v := TickIntent(c, w);
    if v.ledger == w.ledger {
      Authority.EvolvesReflexive(w.ledger);
    } else {
      var q :| v.ledger == Authority.Serve(c.kind, w.ledger, q).0;
      Authority.ServeEvolves(c.kind, w.ledger, q);
    }
  }

  /** Before a step drops a committed intent, the journal says so. */
  lemma DropIsLogged(c: Config, w: World)
    requires w.pc.AppendCommitted?
    ensures var v := TickIntent(c, w);
            && (v.pc.DropCommitted? ==> v.pc.it == w.pc.it && Logged(v.log, Journal.Committed, v.pc.it.key))
            && (Working(v.pc) && v.pc.flow.Loop? ==> Journal.Fold(v.log) == Some(v.pc.flow.records))
  {
    CommittedLog(w);
    CommittedReloads(w);
    CommittedSilently(w);
    CommittedSuccessor(w, w.pc.flow, w.pc.it);
    hide JournalCommitted, Logged;
    var v := JournalCommitted(w, w.pc.flow, w.pc.it);
    if v.pc.DropCommitted? {
      if v.log == w.log {
        FoldLast(v.log, w.pc.it.key);
      } else {
        LoggedGrows(w.log, RecordOf(Journal.Committed, w.pc.it));
      }
    }
  }

  /** The loop's records change only by reloading the journal. */
  lemma RecordsReload(c: Config, w: World)
    requires C.HasIntent(w.pc) && !w.pc.AppendCommitted?
    ensures var v := TickIntent(c, w);
            Working(v.pc) && v.pc.flow.Loop? ==>
              w.pc.flow.Loop?
              && (v.pc.flow.records == w.pc.flow.records || Journal.Fold(v.log) == Some(v.pc.flow.records))
  {
    if w.pc.AppendPrepared? {
      PrepareLog(w);
      PrepareSuccessor(w, w.pc.flow, w.pc.it);
      hide Prepare;
    } else {
      IntentTickSuccessor(c, w);
      C.ExamineHandsOver(w.snap, if w.pc.Examine? then w.pc.flow else Direct, w.pc.it);
      hide TickIntent, Examined, TakeNext, C.Clear;
    }
  }

  /** Every step on an intent has those facts. */
  lemma IntentStepFacts(c: Config, w: World)
    requires C.Inv(w) && C.HasIntent(w.pc) && Authority.Kept(c.kind, w.ledger) && Once(w)
    ensures IntentStep(c, w, TickIntent(c, w))
    ensures Working(TickIntent(c, w).pc) ==> w.pc.flow.Loop? == TickIntent(c, w).pc.flow.Loop?
  {
    IntentTickFrame(c, w);
    IntentTickSuccessor(c, w);
    IntentTickLog(c, w);
    IntentEvolves(c, w);
    C.TrackedIntent(w);
    if C.Fenced(w.pc) || C.Unfenced(w.pc) {
      IntentTickHolds(c, w);
    }
    if w.pc.AppendCommitted? {
      DropIsLogged(c, w);
    } else {
      RecordsReload(c, w);
    }
    if w.pc.Examine? {
      C.ExamineHandsOver(w.snap, w.pc.flow, w.pc.it);
    }
    hide TickIntent, Logged, LogStep, Settle, Examined, TakeNext, Held, Authority.Evolves, C.CallOk, C.Queued, C.Backed;
    IntentStepAssembles(c, w, TickIntent(c, w));
  }

  lemma IntentStepAssembles(c: Config, w: World, v: World)
    requires C.Ledgered(w) && C.HasIntent(w.pc) && Once(w) && IntentFrame(w, v) && LogStep(w, v)
    requires v.pc.Idle? || Successor(w.snap, w.pc, v.pc)
    ensures v.pc.CallExecute? && w.pc.AppendPrepared? ==> v.pc.it == w.pc.it && v.pc.it.key !in v.applied
  {}

  lemma IntentKeeps(c: Config, w: World)
    requires C.Inv(w) && C.HasIntent(w.pc) && Authority.Kept(c.kind, w.ledger) && Inv(c, w)
    ensures Inv(c, TickIntent(c, w))
  {
    var v := TickIntent(c, w);
    IntentStepFacts(c, w);
    OnceKeeps(c, w, v);
    HonestKeeps(c, w, v);
    AccountedKeeps(c, w, v);
    AnnouncedKeeps(c, w, v);
    LoadedKeeps(c, w, v);
    hide TickIntent, C.Inv, Once, Honest, Accounted, Announced;
    hide Loaded, RecordOf, Held, Authority.Evolves, Settle, Successor;
    if v.log != w.log {
      RestatesGrows(w.log, w.ever, LineOf(w.pc), w.pc.it);
    }
  }

  // ----- Steps that start or interrupt an operation -----

  /** A step that works on no intent and records none leaves the journal and both external records alone. */
  ghost predicate Elsewhere(w: World, v: World) {
    && v.log == w.log && v.applied == w.applied && v.caused == w.caused && v.ever == w.ever
    && v.snap.pending == w.snap.pending
    && Authority.Evolves(w.ledger, v.ledger)
    && (|| v.pc.Idle? || Publishing(v.pc) || v.pc.CallExecutor? || v.pc == w.pc
        || (w.pc.CallExecute? && v.pc == Confirm(w.pc.flow, w.pc.it))
        || (v.pc.NextIntent? && v.pc.flow.Loop? && Journal.Fold(w.log) == Some(v.pc.flow.records))
        || (w.pc.NextIntent? && v.pc == TakeNext(w.pc.flow)))
  }

  lemma ElsewhereHonest(c: Config, w: World, v: World)
    requires Honest(c, w) && Elsewhere(w, v)
    ensures Honest(c, v)
  {
    forall k | k in w.ever && Held(c.kind, w.ledger, w.applied, w.ever[k])
      ensures Held(c.kind, v.ledger, v.applied, v.ever[k])
    {
      HeldStays(c.kind, w.ledger, w.applied, v.ledger, v.applied, w.ever[k]);
    }
    if w.pc.AppendCommitted? || w.pc.DropCommitted? {
      HeldStays(c.kind, w.ledger, w.applied, v.ledger, v.applied, w.pc.it);
    }
    hide Held, Logged, Authority.Evolves, Journal.Fold;
  }

  /** Control does not get closer to an effect, or past a journal line, without a step on an intent. */
  lemma ElsewhereControl(w: World, v: World)
    requires Elsewhere(w, v) && C.Queued(w.snap, w.pc)
    ensures AboutToApply(v.pc) ==> AboutToApply(w.pc) && v.pc.it == w.pc.it
    ensures v.pc.DropCommitted? || v.pc.DropRefused? ==> v.pc == w.pc
  {
    hide Authority.Evolves, Journal.Fold;
  }

  lemma ElsewhereAnnounced(w: World, v: World)
    requires Elsewhere(w, v) && C.Queued(w.snap, w.pc) && Loaded(w) && AfterPrepared(v.pc)
    ensures Announced(w) ==> Logged(w.log, Journal.Prepared, v.pc.it.key)
  {
    hide Logged, Authority.Evolves, Journal.Fold, AboutToApply;
  }

  lemma ElsewhereCounts(w: World, v: World)
    requires Once(w) && Accounted(w) && Announced(w) && Loaded(w) && Elsewhere(w, v) && C.Queued(w.snap, w.pc)
    ensures Once(v) && Accounted(v) && Announced(v)
  {
    ElsewhereControl(w, v);
    if AfterPrepared(v.pc) {
      ElsewhereAnnounced(w, v);
    }
    hide Logged, Terminal, Authority.Evolves, Keys, Journal.Fold, C.Queued, AboutToApply, AfterPrepared, TakeNext;
  }

  lemma ElsewhereLoaded(w: World, v: World)
    requires Loaded(w) && Elsewhere(w, v) && C.Queued(w.snap, w.pc)
    ensures Loaded(v)
  {
    if v.pc.NextIntent? && v.pc != w.pc && Journal.Fold(w.log).Some? {
      FoldPrepared(w.log);
    }
    hide Logged, Authority.Evolves, Journal.Fold;
  }

  lemma ElsewhereKeeps(c: Config, w: World, v: World)
    requires Inv(c, w) && Elsewhere(w, v) && C.Queued(w.snap, w.pc)
    ensures Inv(c, v)
  {
    ElsewhereHonest(c, w, v);
    ElsewhereCounts(w, v);
    ElsewhereLoaded(w, v);
    hide Honest, Once, Accounted, Announced, Loaded, Restates, Authority.Evolves, C.Queued, Journal.Fold;
  }

  lemma OtherStores(c: Config, w: World, act: Action)
    requires Enabled(w, act) && !(act.Tick? && C.HasIntent(w.pc)) && !act.ExecuteProtected? && !act.ExecuteRecoverable?
    ensures var v := Next(c, w, act);
            v.log == w.log && v.applied == w.applied && v.caused == w.caused && v.ever == w.ever
  {
    hide Kernel.Issue, Check, R.Commit, R.Verify, R.HasRefusal;
    hide Authority.Serve, Journal.Fold, TickPublish, TakeNext, Spend;
    if act.Tick? && Publishing(w.pc) {
      PublishTickFrame(c, w);
    }
  }

  lemma OtherControl(c: Config, w: World, act: Action)
    requires Enabled(w, act) && !(act.Tick? && C.HasIntent(w.pc)) && !act.ExecuteProtected? && !act.ExecuteRecoverable?
    ensures var v := Next(c, w, act);
            || v.pc.Idle? || Publishing(v.pc) || v.pc.CallExecutor? || v.pc == w.pc
            || (w.pc.CallExecute? && v.pc == Confirm(w.pc.flow, w.pc.it))
            || (v.pc.NextIntent? && v.pc.flow.Loop? && Journal.Fold(w.log) == Some(v.pc.flow.records))
            || (w.pc.NextIntent? && v.pc == TakeNext(w.pc.flow))
  {
    hide Kernel.Issue, Check, R.Commit, R.Verify, R.HasRefusal;
    hide Authority.Serve, Journal.Fold, TickPublish, TakeNext, Spend;
    if act.Tick? && Publishing(w.pc) {
      PublishTickFrame(c, w);
    }
  }

  lemma OtherPending(c: Config, w: World, act: Action)
    requires Enabled(w, act) && !(act.Tick? && C.HasIntent(w.pc)) && !act.ExecuteProtected? && !act.ExecuteRecoverable?
    ensures Next(c, w, act).snap.pending == w.snap.pending
  {
    if !act.Execute? && !(act.Tick? && Working(w.pc)) {
      C.OtherStepRecords(c, w, act);
      hide Next;
    } else {
      hide Kernel.Issue, Check, TickPublish, TakeNext;
    }
  }

  /** A new intent is on record and pending; nothing else has changed yet. */
  ghost predicate Fresh(w: World, v: World, it: Intent) {
    && it.key !in w.ever && v.ever == w.ever[it.key := it]
    && v.log == w.log && v.applied == w.applied && v.caused == w.caused && v.ledger == w.ledger && v.torn == w.torn
    && v.snap.pending == w.snap.pending + [it] && v.pc == AppendPrepared(Direct, it)
  }

  lemma FreshAccounted(w: World, v: World, it: Intent)
    requires Fresh(w, v, it) && Accounted(w)
    ensures Accounted(v)
  {
    assert it in v.snap.pending && forall x | x in w.snap.pending :: x in v.snap.pending;
    forall k | k in Keys(w.snap.pending) || k == it.key ensures k in Keys(v.snap.pending) {}
    hide Logged, Keys;
  }

  lemma FreshHonest(c: Config, w: World, v: World, it: Intent)
    requires Fresh(w, v, it) && Restates(w.log, w.ever) && Once(w) && Honest(c, w)
    ensures Restates(v.log, v.ever) && Once(v) && Honest(c, v)
  {
    hide Held, Logged, RecordOf;
  }

  lemma RecordIsFresh(w: World, q: EffectRequest, params: string, protected: bool)
    requires C.Ledgered(w) && EffectKey(q) !in w.snap.consumed
    ensures Fresh(w, Record(w, q, params, protected), IntentOf(w.snap, q, params, protected))
  {
    hide C.Backed;
  }

  lemma RecordStarts(c: Config, w: World, q: EffectRequest, params: string, protected: bool)
    requires C.Ledgered(w) && w.pc.Idle? && Inv(c, w) && EffectKey(q) !in w.snap.consumed
    ensures Inv(c, Record(w, q, params, protected))
  {
    var it := IntentOf(w.snap, q, params, protected);
    var v := Record(w, q, params, protected);
    RecordIsFresh(w, q, params, protected);
    FreshAccounted(w, v, it);
    FreshHonest(c, w, v, it);
    hide C.Ledgered, Record, Logged, Keys, RecordOf, Accounted, Honest, Once, Restates;
  }

  lemma StepKeeps(c: Config, w: World, act: Action)
    requires A.Inv(w) && C.Inv(w) && Inv(c, w) && Authority.Kept(c.kind, w.ledger) && Enabled(w, act)
    ensures Inv(c, Next(c, w, act))
  {
    if act.ExecuteProtected? || act.ExecuteRecoverable? {
      NextRecords(c, w, act);
      if Check(w.snap, act.bootId, act.req, Some(act.params), act.ExecuteProtected?).None? {
        C.CheckedIsAdmissible(w, act.bootId, act.req, Some(act.params), act.ExecuteProtected?);
        hide Inv, Next, Check, Record, Authority.Kept;
        RecordStarts(c, w, act.req, act.params, act.ExecuteProtected?);
      }
      hide Inv, Next, Check, Record, Authority.Kept, C.Inv;
    } else if act.Tick? && C.HasIntent(w.pc) {
      NextOnIntent(c, w);
      hide Inv, Next, TickIntent, C.Inv, Authority.Kept;
      IntentKeeps(c, w);
    } else {
      OtherStores(c, w, act);
      OtherControl(c, w, act);
      OtherPending(c, w, act);
      Fencing.StepEvolves(c, w, act);
      hide Next, Inv, TakeNext, Authority.Evolves, Authority.Kept;
      ElsewhereKeeps(c, w, Next(c, w, act));
    }
  }

  lemma {:induction false} ReachableInv(c: Config, run: Run)
    requires At(c, run).Some?
    ensures Inv(c, At(c, run).value)
  {
    if run.Do? {
      ReachableInv(c, run.prior);
      A.ReachableInv(c, run.prior);
      C.ReachableInv(c, run.prior);
      Fencing.LedgerKept(c, run.prior);
      hide Inv, Next;
      StepKeeps(c, At(c, run.prior).value, run.act);
    } else {
      InitialInv(c, run.world);
    }
  }

  lemma InitialInv(c: Config, w: World)
    requires Initial(c, w)
    ensures Inv(c, w)
  {}

  // ----- Main results -----

  /**
   The recoverable adapter applies each idempotency key at most once over every run of crashes, replays and
   repeated reconciliation, although its `execute` is not idempotent.
   */
  lemma AppliedAtMostOnce(c: Config, run: Run)
    requires At(c, run).Some?
    ensures var a := At(c, run).value.applied;
            forall i, j | 0 <= i < j < |a| :: a[i] != a[j]
  {
    ReachableInv(c, run);
  }

  /** Every intent ever recorded is still pending or has a terminal journal line. */
  lemma NothingIsLost(c: Config, run: Run, k: string)
    requires At(c, run).Some? && k in At(c, run).value.ever
    ensures var w := At(c, run).value;
            (exists it :: it in w.snap.pending && it.key == k) || Terminal(w.log, k)
  {
    ReachableInv(c, run);
    var w := At(c, run).value;
    if k in Keys(w.snap.pending) {
      var it :| it in w.snap.pending && it.key == k;
    }
  }

  /** A COMMITTED line means the external system holds the effect (for that outcome, with the database form). */
  lemma CommittedMeansHeld(c: Config, run: Run, k: string)
    requires At(c, run).Some? && Logged(At(c, run).value.log, Journal.Committed, k)
    ensures var w := At(c, run).value;
            k in w.ever && Held(c.kind, w.ledger, w.applied, w.ever[k])
  {
    ReachableInv(c, run);
  }

  /** Every effect the gate caused had its key consumed and its PREPARED line written first. */
  lemma CausedWasAnnounced(c: Config, run: Run, k: string)
    requires At(c, run).Some? && k in At(c, run).value.caused
    ensures var w := At(c, run).value;
            k in w.snap.consumed && Logged(w.log, Journal.Prepared, k)
  {
    ReachableInv(c, run);
    C.ReachableInv(c, run);
  }

  /** `caused` misses nothing: any effect that a step of this gate adds outside is in it. */
  lemma CausesAreRecorded(c: Config, run: Run, act: Action, k: string)
    requires At(c, run).Some? && Enabled(At(c, run).value, act) && !act.Foreign?
    requires var w := At(c, run).value; var v := Next(c, w, act);
             (k in v.ledger.effects && k !in w.ledger.effects) || (k in v.applied && k !in w.applied)
    ensures k in Next(c, At(c, run).value, act).caused
  {
    var w := At(c, run).value;
    C.ReachableInv(c, run);
    if act.Tick? && C.HasIntent(w.pc) {
      C.TrackedIntent(w);
      IntentCauses(c, w, k);
    } else {
      QuietOutside(c, w, act);
      if !act.ExecuteProtected? && !act.ExecuteRecoverable? {
        OtherStores(c, w, act);
      }
      hide Next;
    }
  }

  lemma IntentCauses(c: Config, w: World, k: string)
    requires C.HasIntent(w.pc) && w.pc.it.idemKey == w.pc.it.key
    requires var v := TickIntent(c, w);
             (k in v.ledger.effects && k !in w.ledger.effects) || (k in v.applied && k !in w.applied)
    ensures k in TickIntent(c, w).caused
  {
    IntentTickFrame(c, w);
    hide Prepare, JournalCommitted, FinishCommitted, Examined, TakeNext, Settle, StatusOf;
  }

  lemma PublishAddsNoEffect(c: Config, w: World)
    requires Publishing(w.pc)
    ensures TickPublish(c, w).ledger.effects == w.ledger.effects && TickPublish(c, w).applied == w.applied
  {
    PublishTickFrame(c, w);
    hide R.AppendRefusal, Authority.Serve;
    var b := w.pc.refusal.body;
    Authority.RefuseAddsNoEffect(c.kind, w.ledger, b.outcomeKey, b.targetEpoch, b.id);
  }

  /** Apart from foreign requests and steps on an intent, nothing adds an effect. */
  lemma QuietOutside(c: Config, w: World, act: Action)
    requires Enabled(w, act) && !act.Foreign? && !(act.Tick? && C.HasIntent(w.pc))
    ensures var v := Next(c, w, act);
            v.ledger.effects == w.ledger.effects && v.applied == w.applied
  {
    hide Kernel.Issue, Check, R.Commit, R.Verify, R.HasRefusal, Journal.Fold, TakeNext, Spend, TickPublish;
    if act.Tick? && Publishing(w.pc) {
      PublishAddsNoEffect(c, w);
    }
  }

  /** With the database authority no intent for a refused outcome is ever journaled COMMITTED. */
  lemma RefusedIsNeverJournaledCommitted(c: Config, run: Run, k: string)
    requires At(c, run).Some? && c.kind.Postgres? && Logged(At(c, run).value.log, Journal.Committed, k)
    ensures var w := At(c, run).value;
            k in w.ever && (w.ever[k].outcomeKey == "" || w.ever[k].outcomeKey !in w.ledger.refusals)
  {
    CommittedMeansHeld(c, run, k);
    Fencing.LedgerKept(c, run);
    var w := At(c, run).value;
    if w.ever[k].outcomeKey in w.ledger.refusals && w.ever[k].outcomeKey != "" {
      assert w.ledger.Committed(w.ever[k].outcomeKey);
    }
  }
}
