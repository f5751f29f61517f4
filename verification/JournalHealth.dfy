/**
 The gate keeps its own journal acceptable as long as no crash falls between a terminal line and its intent's
 removal.
 */
module JournalHealth {
  import opened Base
  import opened Durable
  import opened Kernel
  import opened Gate
  import opened Protocol
  import J = Journal
  import A = Authorisation
  import C = Calls
  import D = Delivery
  import Fencing
  import Authority

  /** No terminal line yet: the key is unknown to the journal or only PREPARED. */
  predicate Open(state: map<string, J.Record>, key: string) {
    key in state ==> state[key].status.Prepared?
  }

  /** The loop's records and the journal agree on the intents still to come. */
  ghost predicate Agrees(records: map<string, J.Record>, state: map<string, J.Record>, its: seq<Intent>) {
    forall it | it in its :: Get(records, it.key) == Get(state, it.key)
  }

  predicate Dropping(pc: Pc) {
    pc.DropCommitted? || pc.DropRefused?
  }

  /** The state of the journal and what it says about the intents in the store. */
  ghost predicate Sound(s: Snapshot, log: seq<J.Record>, pc: Pc) {
    && J.Fold(log).Some?
    && var state := J.Fold(log).value;
       && (forall it | it in s.pending :: (Dropping(pc) && it == pc.it) || Open(state, it.key))
       && (pc.AppendPrepared? ==> pc.it.key !in state)
       && (Working(pc) && pc.flow.Loop? ==> Agrees(pc.flow.records, state, pc.flow.rest))
  }

  ghost predicate Inv(w: World) {
    && (forall k | k in w.ever :: k != "")
    && (!w.torn ==> Sound(w.snap, w.log, w.pc))
  }

  lemma LoggedIsKnown(log: seq<J.Record>, status: J.Status, key: string)
    requires J.Fold(log).Some? && D.Logged(log, status, key)
    ensures key in J.Fold(log).value
  {
    J.FoldAccepts(log);
    var r :| r in log && r.key == key && r.status == status;
    J.InProjection(log, r);
    var p := J.Projection(log, key);
    assert Get(J.Fold(log).value, key) == if p == [] then None else Some(p[|p| - 1]);
  }

  /** The summary of a journal that restates its intents holds restatements too. */
  lemma KnownRestates(log: seq<J.Record>, ever: map<string, Intent>, key: string)
    requires J.Fold(log).Some? && D.Restates(log, ever) && key in J.Fold(log).value
    ensures key in ever && J.Fold(log).value[key] == RecordOf(J.Fold(log).value[key].status, ever[key])
  {
    J.FoldAccepts(log);
    var p := J.Projection(log, key);
    assert Get(J.Fold(log).value, key) == if p == [] then None else Some(p[|p| - 1]);
    J.ProjectionIsIn(log, key, |p| - 1);
    J.ProjectionKeys(log, key);
  }

  lemma RestatementFields(status: J.Status, other: J.Status, it: Intent)
    ensures J.HasFields(RecordOf(status, it)) && J.SameFields(RecordOf(status, it), RecordOf(other, it))
  {}

  /** Appending a PREPARED line for an unknown key, or a terminal line for an open one, is accepted. */
  lemma AppendAccepted(log: seq<J.Record>, ever: map<string, Intent>, status: J.Status, it: Intent)
    requires J.Fold(log).Some? && D.Restates(log, ever) && it.key in ever && ever[it.key] == it && it.key != ""
    requires status.Prepared? || status.Committed? || status.Refused?
    requires if status.Prepared? then it.key !in J.Fold(log).value
             else it.key in J.Fold(log).value && J.Fold(log).value[it.key].status.Prepared?
    ensures J.Fold(log + [RecordOf(status, it)]) == Some(J.Fold(log).value[it.key := RecordOf(status, it)])
  {
    J.FoldAppend(log, RecordOf(status, it));
    if it.key in J.Fold(log).value {
      KnownRestates(log, ever, it.key);
      RestatementFields(status, J.Prepared, it);
    } else {
      RestatementFields(status, status, it);
    }
    hide RecordOf, J.SameFields, J.HasFields, J.Fold;
  }

  /** A terminal line for a key that already has one spoils the journal for good. */
  lemma SecondTerminalSpoils(log: seq<J.Record>, status: J.Status, it: Intent)
    requires J.Fold(log).Some? && !status.Prepared?
    requires it.key in J.Fold(log).value && !J.Fold(log).value[it.key].status.Prepared?
    ensures J.Fold(log + [RecordOf(status, it)]) == None
  {
    J.FoldAppend(log, RecordOf(status, it));
  }

  // ----- Preservation -----

  lemma TerminalLineProceeds(c: Config, w: World)
    requires w.pc.AppendCommitted? || w.pc.AppendRefused?
    requires J.Fold(w.log).Some?
    ensures var v := TickIntent(c, w);
            J.Fold(v.log).Some? ==> Dropping(v.pc) && v.pc.it == w.pc.it
  {
    hide J.Fold, RecordOf;
  }

  lemma OthersKeepKeys(s: Snapshot, pc: Pc)
    requires C.Queued(s, pc) && DistinctKeys(s.pending) && C.HasIntent(pc)
    ensures pc.it in s.pending
    ensures forall x | x in s.pending && x != pc.it :: x.key != pc.it.key
    ensures pc.flow.Loop? ==> forall x | x in pc.flow.rest :: x.key != pc.it.key
  {
    if pc.flow.Loop? {
      assert s.pending[0] == pc.it;
      forall x | x in pc.flow.rest ensures x.key != pc.it.key {
        var i :| 0 <= i < |pc.flow.rest| && pc.flow.rest[i] == x;
        assert s.pending[i + 1] == x;
      }
    }
  }

  /** A line for one key leaves what the journal says about the others alone. */
  lemma AgreesElsewhere(records: map<string, J.Record>, state: map<string, J.Record>, its: seq<Intent>, key: string,
                        r: J.Record)
    requires Agrees(records, state, its) && forall x | x in its :: x.key != key
    ensures Agrees(records, state[key := r], its)
  {}

  /** A step appends PREPARED only for an unknown key and a terminal line only for an open one. */
  lemma LineIsDue(w: World)
    requires Sound(w.snap, w.log, w.pc) && D.Announced(w) && C.HasIntent(w.pc) && !Dropping(w.pc)
    requires w.pc.it in w.snap.pending
    ensures var state := J.Fold(w.log).value;
            if w.pc.AppendPrepared? then w.pc.it.key !in state
            else w.pc.it.key in state && state[w.pc.it.key].status.Prepared?
  {
    if !w.pc.AppendPrepared? {
      LoggedIsKnown(w.log, J.Prepared, w.pc.it.key);
    }
    hide J.Fold, D.Logged, Agrees;
  }

  /** What the step's line does to the journal. */
  lemma LineIsSound(w: World, v: World)
    requires D.LogStep(w, v) && Sound(w.snap, w.log, w.pc) && D.Restates(w.log, w.ever) && D.Announced(w)
    requires C.HasIntent(w.pc) && w.pc.it in w.snap.pending && w.pc.it.key != "" && v.log != w.log
    requires w.pc.it.key in w.ever && w.ever[w.pc.it.key] == w.pc.it
    ensures J.Fold(v.log) == Some(J.Fold(w.log).value[w.pc.it.key := RecordOf(D.LineOf(w.pc), w.pc.it)])
  {
    LineIsDue(w);
    hide J.Fold, RecordOf, D.Restates, D.Announced, Agrees, Open;
    AppendAccepted(w.log, w.ever, D.LineOf(w.pc), w.pc.it);
  }

  /** What a step on an intent leaves of the snapshot's intents. */
  lemma RemainingIntents(w: World, v: World)
    requires IntentFrame(w, v) && C.HasIntent(w.pc)
    ensures || v.snap == w.snap
            || (Dropping(w.pc)
                && forall x :: x in v.snap.pending <==> x in w.snap.pending && x.key != w.pc.it.key)
  {
    DroppedMembers(w.snap.pending, w.pc.it.key);
  }

  lemma DropSettles(c: Config, w: World)
    requires Dropping(w.pc) && C.CallOk(w.snap, w.issued, w.pc)
    ensures TickIntent(c, w).snap == Settle(w.snap, w.pc.it.key) && TickIntent(c, w).log == w.log
  {
    hide Settle, IsRefused;
  }

  /** Where the loop stands after a step on an intent. */
  lemma LoopAgrees(c: Config, w: World, v: World)
    requires D.IntentStep(c, w, v) && (Working(v.pc) ==> w.pc.flow.Loop? == v.pc.flow.Loop?)
    requires J.Fold(v.log).Some? && Working(v.pc) && v.pc.flow.Loop?
    requires Agrees(w.pc.flow.records, J.Fold(v.log).value, w.pc.flow.rest)
    ensures Agrees(v.pc.flow.records, J.Fold(v.log).value, v.pc.flow.rest)
    ensures !v.pc.AppendPrepared?
  {
    C.ExamineHandsOver(w.snap, w.pc.flow, w.pc.it);
    hide J.Fold, D.LogStep, IntentFrame, Settle, Examined, TakeNext, D.Held, Authority.Evolves, C.Clear, D.Logged;
  }

  lemma DirectNeverPrepares(c: Config, w: World, v: World)
    requires D.IntentStep(c, w, v)
    ensures !v.pc.AppendPrepared?
  {
    C.ExamineHandsOver(w.snap, w.pc.flow, w.pc.it);
    hide J.Fold, D.LogStep, IntentFrame, Settle, Examined, TakeNext, D.Held, Authority.Evolves, C.Clear, D.Logged;
  }

  /** A step that writes no line: nothing changes, or the settled intent leaves. */
  lemma SilentStep(c: Config, w: World, v: World)
    requires D.IntentStep(c, w, v) && (Working(v.pc) ==> w.pc.flow.Loop? == v.pc.flow.Loop?)
    requires v.log == w.log && Sound(w.snap, w.log, w.pc)
    requires Dropping(w.pc) ==> v.snap == Settle(w.snap, w.pc.it.key)
    ensures Sound(v.snap, v.log, v.pc)
  {
    RemainingIntents(w, v);
    DirectNeverPrepares(c, w, v);
    if Working(v.pc) && v.pc.flow.Loop? {
      LoopAgrees(c, w, v);
    }
    hide J.Fold, Agrees, D.IntentStep, Settle, Open;
    forall it | it in v.snap.pending ensures Open(J.Fold(v.log).value, it.key) {}
  }

  /** After a line for one key the other intents are as open as before. */
  lemma LineKeepsOthers(pending: seq<Intent>, state: map<string, J.Record>, it: Intent, r: J.Record, next: Pc)
    requires forall x | x in pending :: Open(state, x.key)
    requires forall x | x in pending && x != it :: x.key != it.key
    requires r.status.Prepared? || (Dropping(next) && next.it == it)
    ensures forall x | x in pending :: (Dropping(next) && x == next.it) || Open(state[it.key := r], x.key)
  {}

  /** A step that writes a line: it is accepted, and a terminal one is followed by dropping its intent. */
  lemma WritingStep(c: Config, w: World, v: World)
    requires D.IntentStep(c, w, v) && (Working(v.pc) ==> w.pc.flow.Loop? == v.pc.flow.Loop?)
    requires v.log != w.log && Sound(w.snap, w.log, w.pc)
    requires D.Restates(w.log, w.ever) && D.Announced(w) && w.pc.it.key != ""
    requires C.Queued(w.snap, w.pc) && DistinctKeys(w.snap.pending)
    requires (w.pc.AppendCommitted? || w.pc.AppendRefused?) && J.Fold(v.log).Some? ==> Dropping(v.pc) && v.pc.it == w.pc.it
    ensures Sound(v.snap, v.log, v.pc)
  {
    var r := RecordOf(D.LineOf(w.pc), w.pc.it);
    OthersKeepKeys(w.snap, w.pc);
    LineIsSound(w, v);
    WritesAndKeeps(c, w, v);
    DirectNeverPrepares(c, w, v);
    StatusOfRecord(D.LineOf(w.pc), w.pc.it);
    LineKeepsOthers(w.snap.pending, J.Fold(w.log).value, w.pc.it, r, v.pc);
    hide J.Fold, D.IntentStep, RecordOf, D.Restates, D.Announced, C.Queued, DistinctKeys, Open, Agrees;
    if Working(v.pc) && v.pc.flow.Loop? {
      AgreesElsewhere(w.pc.flow.records, J.Fold(w.log).value, w.pc.flow.rest, w.pc.it.key, r);
      LoopAgrees(c, w, v);
    }
  }

  lemma StatusOfRecord(status: J.Status, it: Intent)
    ensures RecordOf(status, it).status == status
  {}

  lemma WritesAndKeeps(c: Config, w: World, v: World)
    requires D.IntentStep(c, w, v) && v.log != w.log
    ensures v.snap == w.snap && D.Appends(w.pc)
  {
    hide J.Fold, D.Held, Authority.Evolves, Settle, RecordOf, Successor;
  }

  lemma IntentKeeps(c: Config, w: World)
    requires C.Inv(w) && D.Inv(c, w) && C.HasIntent(w.pc) && Authority.Kept(c.kind, w.ledger) && Inv(w)
    ensures Inv(TickIntent(c, w))
  {
    var v := TickIntent(c, w);
    D.IntentStepFacts(c, w);
    assert v.torn == w.torn && v.ever == w.ever;
    if !w.torn {
      if Dropping(w.pc) {
        DropSettles(c, w);
      }
      assert w.pc.it.key in w.ever && w.pc.it.key != "";
      if v.log == w.log {
        hide TickIntent, C.Inv, D.Inv, D.IntentStep, Sound, Settle;
        SilentStep(c, w, v);
      } else {
        if w.pc.AppendCommitted? || w.pc.AppendRefused? {
          TerminalLineProceeds(c, w);
        }
        hide TickIntent, D.IntentStep, Sound, Settle, D.Restates;
        hide D.Announced, D.Once, D.Honest, D.Accounted, D.Loaded, C.CallOk;
        WritingStep(c, w, v);
      }
    }
  }

  lemma KeyNonEmpty(q: EffectRequest)
    ensures EffectKey(q) != ""
  {}

  /** A new intent's key is unknown to the journal. */
  lemma FreshIsSound(w: World, v: World, it: Intent)
    requires D.Fresh(w, v, it) && D.Restates(w.log, w.ever) && w.pc.Idle? && Sound(w.snap, w.log, w.pc)
    ensures Sound(v.snap, v.log, v.pc)
  {
    if it.key in J.Fold(w.log).value {
      KnownRestates(w.log, w.ever, it.key);
    }
    hide D.Restates, J.Fold, RecordOf, Agrees;
  }

  lemma RecordKeeps(c: Config, w: World, q: EffectRequest, params: string, protected: bool)
    requires C.Ledgered(w) && D.Restates(w.log, w.ever) && Inv(w) && w.pc.Idle? && EffectKey(q) !in w.snap.consumed
    ensures Inv(Record(w, q, params, protected))
  {
    D.RecordIsFresh(w, q, params, protected);
    KeyNonEmpty(q);
    hide C.Ledgered, D.Restates, Record, Sound;
    if !w.torn {
      FreshIsSound(w, Record(w, q, params, protected), IntentOf(w.snap, q, params, protected));
    }
  }

  /** A crash is the only way to leave an intent between its terminal line and its removal, and it is noted. */
  lemma OtherTorn(c: Config, w: World, act: Action)
    requires Enabled(w, act) && !(act.Tick? && C.HasIntent(w.pc)) && !act.ExecuteProtected? && !act.ExecuteRecoverable?
    ensures var v := Next(c, w, act);
            && (v.torn == w.torn || act.Crash?)
            && (w.torn ==> v.torn)
            && (Dropping(w.pc) ==> v.pc == w.pc || v.torn)
  {
    hide Kernel.Issue, Check, TickPublish, TakeNext, J.Fold, Authority.Serve, Spend;
    if act.Tick? && Publishing(w.pc) {
      PublishTickFrame(c, w);
    }
  }

  lemma ElsewhereSound(w: World, v: World)
    requires D.Elsewhere(w, v) && Sound(w.snap, w.log, w.pc) && (Dropping(w.pc) ==> v.pc == w.pc)
    requires C.Queued(w.snap, w.pc)
    ensures Sound(v.snap, v.log, v.pc)
  {
    if w.pc.NextIntent? && v.pc == TakeNext(w.pc.flow) && w.pc.flow.Loop? && w.pc.flow.rest != [] {
      var it := w.pc.flow.rest[0];
      assert Get(w.pc.flow.records, it.key) == Get(J.Fold(w.log).value, it.key);
    }
    hide J.Fold, Authority.Evolves;
  }

  lemma StepKeeps(c: Config, w: World, act: Action)
    requires A.Inv(w) && C.Inv(w) && D.Inv(c, w) && Authority.Kept(c.kind, w.ledger) && Inv(w) && Enabled(w, act)
    ensures Inv(Next(c, w, act))
  {
    if act.ExecuteProtected? || act.ExecuteRecoverable? {
      NextRecords(c, w, act);
      if Check(w.snap, act.bootId, act.req, Some(act.params), act.ExecuteProtected?).None? {
        C.CheckedIsAdmissible(w, act.bootId, act.req, Some(act.params), act.ExecuteProtected?);
        hide Inv, Next, Check, Record, C.Ledgered, D.Restates, Authority.Kept;
        RecordKeeps(c, w, act.req, act.params, act.ExecuteProtected?);
      }
      hide Inv, Next, Check, Record, Authority.Kept, C.Inv, D.Inv;
    } else if act.Tick? && C.HasIntent(w.pc) {
      NextOnIntent(c, w);
      hide Inv, Next, TickIntent, C.Inv, D.Inv, Authority.Kept;
      IntentKeeps(c, w);
    } else {
      hide Inv, Next, C.Inv, Authority.Kept;
      OtherKeeps(c, w, act);
    }
  }

  /** Neither on an intent nor recording one. */
  lemma OtherIsElsewhere(c: Config, w: World, act: Action)
    requires Authority.Kept(c.kind, w.ledger) && Enabled(w, act)
    requires !(act.Tick? && C.HasIntent(w.pc)) && !act.ExecuteProtected? && !act.ExecuteRecoverable?
    ensures D.Elsewhere(w, Next(c, w, act))
  {
    D.OtherStores(c, w, act);
    D.OtherControl(c, w, act);
    D.OtherPending(c, w, act);
    Fencing.StepEvolves(c, w, act);
    hide Next, TakeNext, Authority.Evolves, J.Fold, Authority.Kept, Authority.NothingAfterRefusal;
  }

  lemma OtherKeeps(c: Config, w: World, act: Action)
    requires C.Inv(w) && Authority.Kept(c.kind, w.ledger) && Inv(w) && Enabled(w, act)
    requires !(act.Tick? && C.HasIntent(w.pc)) && !act.ExecuteProtected? && !act.ExecuteRecoverable?
    ensures Inv(Next(c, w, act))
  {
    OtherIsElsewhere(c, w, act);
    OtherTorn(c, w, act);
    D.OtherStores(c, w, act);
    hide Next, D.Elsewhere, Sound, C.Queued, C.CallOk, Authority.Kept;
    var v := Next(c, w, act);
    if !v.torn {
      ElsewhereSound(w, v);
    }
  }

  lemma {:induction false} ReachableInv(c: Config, run: Run)
    requires At(c, run).Some?
    ensures Inv(At(c, run).value)
  {
    if run.Do? {
      ReachableInv(c, run.prior);
      A.ReachableInv(c, run.prior);
      C.ReachableInv(c, run.prior);
      D.ReachableInv(c, run.prior);
      Fencing.LedgerKept(c, run.prior);
      hide Inv, Next, A.Inv, C.Inv, D.Inv, Authority.Kept;
      StepKeeps(c, At(c, run.prior).value, run.act);
    }
  }

  // ----- Main results -----

  /**
   The journal stays acceptable, and every intent in the store that has a terminal line is the one being
   dropped, in every run without a crash between a terminal line and the store write that drops its intent.
   */
  lemma HealthyUnlessTorn(c: Config, run: Run)
    requires At(c, run).Some? && !At(c, run).value.torn
    ensures var w := At(c, run).value;
            && J.Acceptable(w.log)
            && forall it | it in w.snap.pending && !(Dropping(w.pc) && it == w.pc.it) ::
                 !D.Logged(w.log, J.Committed, it.key) && !D.Logged(w.log, J.Refused, it.key)
  {
    ReachableInv(c, run);
    var w := At(c, run).value;
    J.FoldAccepts(w.log);
    forall it | it in w.snap.pending && !(Dropping(w.pc) && it == w.pc.it)
      ensures !D.Logged(w.log, J.Committed, it.key) && !D.Logged(w.log, J.Refused, it.key)
    {
      OpenHasNoTerminal(w.log, it.key);
    }
  }

  lemma OpenHasNoTerminal(log: seq<J.Record>, key: string)
    requires J.Fold(log).Some? && Open(J.Fold(log).value, key)
    ensures !D.Logged(log, J.Committed, key) && !D.Logged(log, J.Refused, key)
  {
    J.FoldAccepts(log);
    var p := J.Projection(log, key);
    assert J.Lifecycle(p) && Get(J.Fold(log).value, key) == if p == [] then None else Some(p[|p| - 1]);
    forall r | r in log && r.key == key ensures r.status.Prepared? {
      J.InProjection(log, r);
    }
  }

  /** The journal only grows. */
  lemma StepGrowsLog(c: Config, w: World, act: Action)
    requires Enabled(w, act)
    ensures w.log <= Next(c, w, act).log
  {
    if act.ExecuteProtected? || act.ExecuteRecoverable? {
      NextRecords(c, w, act);
      hide Next, Check;
    } else if act.Tick? && C.HasIntent(w.pc) {
      NextOnIntent(c, w);
      D.IntentTickLog(c, w);
      hide Next, TickIntent, RecordOf;
    } else {
      D.OtherStores(c, w, act);
      hide Next;
    }
  }

  /** A spoiled journal stays spoiled: from then on every `reconcile_pending` raises before it does anything. */
  lemma {:induction false} SpoiledForGood(c: Config, early: Run, late: Run, provided: map<string, string>)
    requires Extends(late, early) && At(c, late).Some? && At(c, early).Some?
    requires J.Fold(At(c, early).value.log).None?
    ensures J.Fold(At(c, late).value.log).None?
    ensures At(c, late).value.pc.Idle? ==> Next(c, At(c, late).value, Reconcile(provided)) == At(c, late).value
  {
    if late != early {
      SpoiledForGood(c, early, late.prior, provided);
      var w, v := At(c, late.prior).value, At(c, late).value;
      StepGrowsLog(c, w, late.act);
      assert v.log[..|w.log|] == w.log;
      J.RejectedForGood(v.log, |w.log|);
      hide Next, J.Fold;
      SpoiledStops(c, v, provided);
    } else {
      hide Next, J.Fold;
      SpoiledStops(c, At(c, late).value, provided);
    }
  }

  lemma SpoiledStops(c: Config, w: World, provided: map<string, string>)
    requires J.Fold(w.log).None?
    ensures w.pc.Idle? ==> Next(c, w, Reconcile(provided)) == w
  {}
}
