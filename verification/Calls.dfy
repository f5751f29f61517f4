/**
 What is true whenever the gate is about to call an executor or the external adapter: the intent is on
 record, belongs to the current epoch, is not refused, and stems from a capability the live state grants.
 */
module Calls {
  import opened Base
  import opened Durable
  import opened Kernel
  import opened Gate
  import opened Protocol
  import A = Authorisation
  import Policy
  import Refusal
  import Authority
  import Journal

  /** The intent comes from an issued capability of its epoch and class. */
  ghost predicate Backs(cap: Capability, it: Intent) {
    && cap.claims.txid == it.txid && cap.claims.epoch == it.epoch
    && cap.claims.effectClass == it.effectClass && cap.claims.paramsDigest == it.paramsDigest
    && (it.outcomeKey != "" ==> cap.claims.outcomeKey == it.outcomeKey)
    && Names(cap, it.effectId)
  }

  /** The capability is bound to this effect, unless it was issued without an effect id. */
  predicate Names(cap: Capability, effectId: string) {
    cap.claims.effectId == "" || cap.claims.effectId == effectId
  }

  /** The request is the one the capability was issued for; parameters are compared where the caller passes them. */
  predicate Requested(q: EffectRequest, given: Option<string>) {
    var c := q.cap.claims;
    && c.principal == q.principal && c.domain == q.domain && c.action == q.action && c.effectClass == q.effectClass
    && Names(q.cap, q.effectId)
    && (given.Some? ==> given.value == c.paramsDigest)
  }

  ghost predicate Backed(issued: set<Capability>, it: Intent) {
    exists cap :: cap in issued && Backs(cap, it)
  }

  predicate HasIntent(pc: Pc) {
    Working(pc) && !pc.NextIntent?
  }

  /** The steps that talk to the adapter through its fenced interface. */
  predicate Fenced(pc: Pc) {
    pc.AskRefused? || pc.AskFence? || pc.CallCommit?
  }

  /** The steps that talk to the adapter through its recoverable interface. */
  predicate Unfenced(pc: Pc) {
    pc.AskStatus? || pc.CallExecute? || pc.Confirm?
  }

  /** The steps that run on an admitted intent. */
  predicate Admitted(pc: Pc) {
    || (pc.AppendPrepared? && pc.flow.Direct?)
    || Fenced(pc) || Unfenced(pc) || pc.AppendCommitted? || pc.DropCommitted?
  }

  ghost predicate Clear(s: Snapshot, it: Intent) {
    it.epoch == s.epoch && !IsRefused(s, it.effectId, it.outcomeKey)
  }

  /** Every intent ever recorded keeps its key, is backed by an issued capability and has its key consumed. */
  ghost predicate Ledgered(w: World) {
    && (forall k | k in w.ever :: w.ever[k].key == k && w.ever[k].idemKey == k && Backed(w.issued, w.ever[k]))
    && w.ever.Keys <= w.snap.consumed
    && (forall it | it in w.snap.pending :: it.key in w.ever && w.ever[it.key] == it)
    && DistinctKeys(w.snap.pending)
  }

  /** The operation in progress works on pending intents; the loop still has exactly its own and the later ones. */
  ghost predicate Queued(s: Snapshot, pc: Pc) {
    && (HasIntent(pc) && pc.flow.Direct? ==> pc.it in s.pending)
    && (HasIntent(pc) && pc.flow.Loop? ==> s.pending == [pc.it] + pc.flow.rest)
    && (pc.NextIntent? && pc.flow.Loop? ==> s.pending == pc.flow.rest)
    && (pc.NextIntent? || pc.Examine? || pc.AppendRefused? || pc.DropRefused? ==> pc.flow.Loop?)
  }

  ghost predicate CallOk(s: Snapshot, issued: set<Capability>, pc: Pc) {
    && (pc.CallExecutor? ==>
          && pc.req.cap in issued && pc.req.cap.claims.epoch == s.epoch
          && !IsRefused(s, pc.req.effectId, "") && Requested(pc.req, pc.given))
    && (Admitted(pc) ==> Clear(s, pc.it))
    && (Fenced(pc) ==> pc.it.outcomeKey != "")
    && (Unfenced(pc) ==> pc.it.outcomeKey == "")
  }

  ghost predicate Inv(w: World) {
    Ledgered(w) && Queued(w.snap, w.pc) && CallOk(w.snap, w.issued, w.pc)
  }

  // ----- Preservation -----

  lemma SettleQueues(s: Snapshot, pc: Pc)
    requires HasIntent(pc) && Queued(s, pc) && DistinctKeys(s.pending)
    ensures Queued(Settle(s, pc.it.key), Resume(pc.flow))
    ensures DistinctKeys(Settle(s, pc.it.key).pending)
    ensures forall it | it in Settle(s, pc.it.key).pending :: it in s.pending
  {
    DroppedMembers(s.pending, pc.it.key);
    DroppedDistinct(s.pending, pc.it.key);
    if pc.flow.Loop? {
      DroppedFirst(pc.it, pc.flow.rest);
    }
  }

  lemma ExamineHandsOver(s: Snapshot, flow: Flow, it: Intent)
    ensures var pc := Examined(s, flow, it);
            || pc.Idle?
            || (flow.Loop? && pc == AppendRefused(flow, it))
            || (flow.Loop? && pc == AskRefused(flow, it) && Clear(s, it) && it.outcomeKey != "")
            || (flow.Loop? && pc == AskStatus(flow, it) && Clear(s, it) && it.outcomeKey == "")
  {
    hide IsRefused, Matching, CanonicalOutcomeKey;
  }

  lemma QueueHandsOver(s: Snapshot, pc: Pc, next: Pc)
    requires HasIntent(pc) && !pc.DropCommitted? && !pc.DropRefused? && Queued(s, pc)
    requires next.Idle? || Successor(s, pc, next)
    ensures Queued(s, next)
  {
    if pc.Examine? {
      ExamineHandsOver(s, pc.flow, pc.it);
    }
    hide Examined, Clear, TakeNext;
  }

  /** A step that leaves the snapshot alone hands over the same guarantees. */
  lemma CallHandsOver(s: Snapshot, issued: set<Capability>, pc: Pc, next: Pc)
    requires HasIntent(pc) && !pc.DropCommitted? && !pc.DropRefused?
    requires pc.NextIntent? || pc.Examine? || pc.AppendRefused? || pc.DropRefused? ==> pc.flow.Loop?
    requires CallOk(s, issued, pc)
    requires next.Idle? || Successor(s, pc, next)
    ensures CallOk(s, issued, next)
  {
    if pc.Examine? {
      ExamineHandsOver(s, pc.flow, pc.it);
    }
    hide Examined, Clear, TakeNext;
  }

  lemma SettleFrame(s: Snapshot, key: string)
    ensures var t := Settle(s, key);
            && t.consumed == s.consumed && t.epoch == s.epoch && t.payload == s.payload && t.commits == s.commits
            && t.nonces == s.nonces && t.sequence == s.sequence + 1
  {}

  lemma DropKeeps(w: World, v: World)
    requires (w.pc.DropCommitted? || w.pc.DropRefused?) && Inv(w)
    requires v.snap == Settle(w.snap, w.pc.it.key) && v.ever == w.ever && v.issued == w.issued
    requires v.pc == Resume(w.pc.flow) || v.pc.Idle?
    ensures Inv(v)
  {
    hide Backed, Clear, Settle, DistinctKeys;
    SettleQueues(w.snap, w.pc);
    SettleFrame(w.snap, w.pc.it.key);
  }

  lemma NextKeeps(s: Snapshot, issued: set<Capability>, flow: Flow)
    requires Queued(s, NextIntent(flow))
    ensures Queued(s, TakeNext(flow)) && CallOk(s, issued, TakeNext(flow))
  {
    if flow.Loop? && flow.rest != [] {
      assert flow.rest == [flow.rest[0]] + flow.rest[1..];
    }
  }

  lemma RestKeeps(s: Snapshot, issued: set<Capability>, pc: Pc)
    requires pc.Idle? || Publishing(pc)
    ensures Queued(s, pc) && CallOk(s, issued, pc)
  {}

  lemma LoopOnly(s: Snapshot, pc: Pc)
    requires Queued(s, pc)
    ensures pc.NextIntent? || pc.Examine? || pc.AppendRefused? || pc.DropRefused? ==> pc.flow.Loop?
  {}

  lemma IntentTickKeeps(c: Config, w: World)
    requires Working(w.pc) && Inv(w)
    ensures Inv(TickIntent(c, w))
  {
    IntentTickFrame(c, w);
    IntentTickSuccessor(c, w);
    hide TickIntent, Queued, CallOk, Backed, DistinctKeys;
    var v := TickIntent(c, w);
    RestKeeps(v.snap, v.issued, Idle);
    if w.pc.NextIntent? {
      NextKeeps(w.snap, w.issued, w.pc.flow);
    } else if w.pc.DropCommitted? || w.pc.DropRefused? {
      if v.snap != w.snap {
        DropKeeps(w, v);
      }
    } else {
      QueueHandsOver(w.snap, w.pc, v.pc);
      LoopOnly(w.snap, w.pc);
      CallHandsOver(w.snap, w.issued, w.pc, v.pc);
    }
  }

  // ----- Entering an operation -----

  /** Passing the checks means holding the current, issued, unspent capability for an unrefused effect. */
  ghost predicate Admissible(w: World, q: EffectRequest, outcomeKey: string) {
    && q.cap in w.issued && q.cap.claims.epoch == w.snap.epoch && q.effectClass == q.cap.claims.effectClass
    && !IsRefused(w.snap, q.effectId, outcomeKey) && EffectKey(q) !in w.snap.consumed
    && Names(q.cap, q.effectId)
  }

  lemma AdmittedIsAdmissible(w: World, bootId: string, q: EffectRequest, outcomeKey: string)
    requires Genuine(w, q.cap) && Admit(w.snap, bootId, q, outcomeKey).None? && Names(q.cap, q.effectId)
    ensures Admissible(w, q, outcomeKey)
    ensures var c := q.cap.claims;
            c.principal == q.principal && c.domain == q.domain && c.action == q.action && c.effectClass == q.effectClass
  {
    hide IsRefused, Recorded;
  }

  lemma CheckedIsAdmissible(w: World, bootId: string, q: EffectRequest, given: Option<string>, protected: bool)
    requires Genuine(w, q.cap) && Check(w.snap, bootId, q, given, protected).None?
    ensures Admissible(w, q, if protected then q.cap.claims.outcomeKey else "")
    ensures Requested(q, given)
    ensures protected ==> q.cap.claims.outcomeKey != ""
  {
    assert ValidateCommon(q, given, protected).None?;
    AdmittedIsAdmissible(w, bootId, q, if protected then q.cap.claims.outcomeKey else "");
    hide Admit, Admissible, Genuine;
  }

  lemma BackedGrows(issued: set<Capability>, more: set<Capability>, it: Intent)
    requires Backed(issued, it) && issued <= more
    ensures Backed(more, it)
  {
    var cap :| cap in issued && Backs(cap, it);
    assert cap in more;
  }

  /** Recording a new intent: its key is new, so nothing on record is disturbed. */
  lemma LedgeredGrows(w: World, v: World, it: Intent)
    requires Ledgered(w) && it.key !in w.snap.consumed && it.idemKey == it.key
    requires v.ever == w.ever[it.key := it] && v.issued == w.issued && Backed(w.issued, it)
    requires v.snap.pending == w.snap.pending + [it] && v.snap.consumed >= w.snap.consumed + {it.key}
    ensures Ledgered(v)
  {
    hide Backed;
    forall i, j | 0 <= i < j < |v.snap.pending| ensures v.snap.pending[i].key != v.snap.pending[j].key {
      assert v.snap.pending[i] == w.snap.pending[i] && w.snap.pending[i] in w.snap.pending;
      if j < |w.snap.pending| {
        assert v.snap.pending[j] == w.snap.pending[j];
      }
    }
  }

  lemma IntentIsAdmitted(w: World, q: EffectRequest, it: Intent, pending: seq<Intent>)
    requires Admissible(w, q, it.outcomeKey) && it.effectId == q.effectId && it.epoch == w.snap.epoch
    requires it.txid == q.cap.claims.txid && it.effectClass == q.effectClass
    requires it.paramsDigest == q.cap.claims.paramsDigest
    requires it.outcomeKey != "" ==> q.cap.claims.outcomeKey == it.outcomeKey
    ensures Backed(w.issued, it) && Clear(Spend(w.snap, q, pending), it)
  {
    assert Backs(q.cap, it);
    SpendFrame(w.snap, q, pending);
  }

  lemma RecordKeeps(w: World, q: EffectRequest, params: string, protected: bool)
    requires Inv(w) && w.pc.Idle? && params == q.cap.claims.paramsDigest
    requires Admissible(w, q, if protected then q.cap.claims.outcomeKey else "")
    ensures Inv(Record(w, q, params, protected))
  {
    var it := IntentOf(w.snap, q, params, protected);
    IntentIsAdmitted(w, q, it, w.snap.pending + [it]);
    SpendFrame(w.snap, q, w.snap.pending + [it]);
    assert it.key !in w.snap.consumed;
    hide Admissible, Ledgered, Spend, Backed, Clear;
    LedgeredGrows(w, Record(w, q, params, protected), it);
  }

  lemma SpendFrame(s: Snapshot, q: EffectRequest, pending: seq<Intent>)
    ensures var t := Spend(s, q, pending);
            && s.consumed + {EffectKey(q)} <= t.consumed && t.pending == pending
            && t.epoch == s.epoch && t.payload == s.payload
            && forall effectId, outcomeKey :: IsRefused(t, effectId, outcomeKey) == IsRefused(s, effectId, outcomeKey)
  {}

  lemma LedgeredStays(w: World, v: World)
    requires Ledgered(w) && v.ever == w.ever && w.issued <= v.issued
    requires v.snap.pending == w.snap.pending && w.snap.consumed <= v.snap.consumed
    ensures Ledgered(v)
  {
    hide Backed;
    forall k | k in v.ever ensures Backed(v.issued, v.ever[k]) {
      BackedGrows(w.issued, v.issued, w.ever[k]);
    }
  }

  lemma ExecuteKeeps(w: World, q: EffectRequest, given: Option<string>)
    requires Inv(w) && w.pc.Idle? && Admissible(w, q, "") && Requested(q, given)
    ensures Inv(w.(snap := Spend(w.snap, q, w.snap.pending), pc := CallExecutor(q, given)))
  {
    var v := w.(snap := Spend(w.snap, q, w.snap.pending), pc := CallExecutor(q, given));
    SpendFrame(w.snap, q, w.snap.pending);
    hide Ledgered;
    LedgeredStays(w, v);
  }

  lemma IssueRecords(s: Snapshot, bootId: string, q: IssueRequest, txid: string)
    ensures Kernel.Issue(s, bootId, q, txid).Ok? ==>
      var t := Kernel.Issue(s, bootId, q, txid).value.0; t.pending == s.pending && t.consumed == s.consumed
  {
    hide IssueObstacle;
  }

  lemma CommitRecords(creds: Refusal.Credentials, s: Snapshot, r: Refusal.RefusalIntent)
    ensures Refusal.Commit(creds, s, r).Ok? ==>
      var t := Refusal.Commit(creds, s, r).value; t.pending == s.pending && t.consumed == s.consumed
  {
    hide Refusal.Verify, Refusal.HasRefusal;
  }

  /** A step that neither spends a capability nor works on an intent leaves the records alone. */
  lemma OtherStepRecords(c: Config, w: World, act: Action)
    requires Enabled(w, act) && !(act.Tick? && Working(w.pc))
    requires !act.Execute? && !act.ExecuteProtected? && !act.ExecuteRecoverable?
    ensures var v := Next(c, w, act);
            && v.ever == w.ever && w.issued <= v.issued
            && v.snap.pending == w.snap.pending && w.snap.consumed == v.snap.consumed
  {
    hide IssueObstacle, Policy.Verdict, Refusal.Verify, Refusal.HasRefusal, Authority.Serve, Journal.Fold, ClaimsOf;
    hide TickPublish;
    if act.Tick? && Publishing(w.pc) {
      PublishTickFrame(c, w);
    } else if act.Issue? {
      IssueRecords(w.snap, act.bootId, act.issue, act.txid);
    } else if act.CommitRefusal? {
      CommitRecords(c.creds, w.snap, act.refusal);
    }
    hide Kernel.Issue, Refusal.Commit, TickIntent, BeginPublish;
  }

  /** Such a step leads to no intent, stays at the one it found, confirms it, or starts the loop on what is pending. */
  lemma OtherStepControl(c: Config, w: World, act: Action)
    requires Enabled(w, act) && !(act.Tick? && Working(w.pc))
    requires !act.Execute? && !act.ExecuteProtected? && !act.ExecuteRecoverable?
    ensures var v := Next(c, w, act);
            || (v.pc.Idle? || Publishing(v.pc))
            || (v.pc == w.pc && v.snap == w.snap && v.issued == w.issued)
            || (act.Unapplied? && v.pc == Confirm(w.pc.flow, w.pc.it) && v.snap == w.snap && v.issued == w.issued)
            || (act.Reconcile? && v.pc.NextIntent? && v.pc.flow.Loop? && v.pc.flow.rest == w.snap.pending && v.snap == w.snap)
  {
    hide Kernel.Issue, Refusal.Commit, Refusal.Verify, Refusal.HasRefusal, Authority.Serve, Journal.Fold, TickPublish;
    if act.Tick? && Publishing(w.pc) {
      PublishTickFrame(c, w);
    }
  }

  lemma UnappliedKeeps(s: Snapshot, issued: set<Capability>, pc: Pc)
    requires pc.CallExecute? && Queued(s, pc) && CallOk(s, issued, pc)
    ensures Queued(s, Confirm(pc.flow, pc.it)) && CallOk(s, issued, Confirm(pc.flow, pc.it))
  {
    hide Clear;
  }

  lemma LoopStarts(s: Snapshot, issued: set<Capability>, pc: Pc)
    requires pc.NextIntent? && pc.flow.Loop? && pc.flow.rest == s.pending
    ensures Queued(s, pc) && CallOk(s, issued, pc)
  {}

  lemma OtherStepKeeps(c: Config, w: World, act: Action)
    requires Enabled(w, act) && !(act.Tick? && Working(w.pc)) && Inv(w)
    requires !act.Execute? && !act.ExecuteProtected? && !act.ExecuteRecoverable?
    ensures Inv(Next(c, w, act))
  {
    OtherStepRecords(c, w, act);
    OtherStepControl(c, w, act);
    hide Next, Ledgered, Queued, CallOk;
    var v := Next(c, w, act);
    LedgeredStays(w, v);
    if v.pc.Idle? || Publishing(v.pc) {
      RestKeeps(v.snap, v.issued, v.pc);
    } else if act.Unapplied? && v.pc.Confirm? {
      UnappliedKeeps(w.snap, w.issued, w.pc);
    } else if act.Reconcile? && v.pc.NextIntent? {
      LoopStarts(v.snap, v.issued, v.pc);
    }
  }

  lemma StepKeeps(c: Config, w: World, act: Action)
    requires A.Inv(w) && Inv(w) && Enabled(w, act)
    ensures Inv(Next(c, w, act))
  {
    hide Inv, TickIntent, Check, Record, Spend, Admissible;
    if act.Execute? {
      if Check(w.snap, act.bootId, act.req, act.given, false).None? {
        CheckedIsAdmissible(w, act.bootId, act.req, act.given, false);
        ExecuteKeeps(w, act.req, act.given);
      }
    } else if act.ExecuteProtected? || act.ExecuteRecoverable? {
      if Check(w.snap, act.bootId, act.req, Some(act.params), act.ExecuteProtected?).None? {
        CheckedIsAdmissible(w, act.bootId, act.req, Some(act.params), act.ExecuteProtected?);
        RecordKeeps(w, act.req, act.params, act.ExecuteProtected?);
      }
    } else if act.Tick? && Working(w.pc) {
      IntentTickKeeps(c, w);
    } else {
      OtherStepKeeps(c, w, act);
    }
  }

  lemma {:induction false} ReachableInv(c: Config, run: Run)
    requires At(c, run).Some?
    ensures Inv(At(c, run).value)
  {
    if run.Do? {
      ReachableInv(c, run.prior);
      A.ReachableInv(c, run.prior);
      StepKeeps(c, At(c, run.prior).value, run.act);
    }
  }

  // ----- Authorisation at the moment of use -----

  /** The next step calls the executor or the adapter. */
  predicate CallsOut(pc: Pc) {
    pc.CallExecutor? || Fenced(pc) || Unfenced(pc)
  }

  function EffectIdOf(pc: Pc): string
    requires CallsOut(pc)
  {
    if pc.CallExecutor? then pc.req.effectId else pc.it.effectId
  }

  /** The capability is the current one, describes the live state, and its action is granted by it right now. */
  ghost predicate GrantedNow(s: Snapshot, cap: Capability) {
    var c := cap.claims;
    && c.epoch == s.epoch
    && c.stateDigest == s.payload.state
    && c.action == c.effectClass
    && c.action in A.Live(s).Perms(c.principal, c.domain)
  }

  /**
   The call is the one the capability was issued for: principal, domain, action, class, effect and parameters of
   an executor call; transaction, effect, class, parameters and protected outcome of an adapter call.
   */
  ghost predicate Covers(cap: Capability, pc: Pc)
    requires CallsOut(pc)
  {
    if pc.CallExecutor? then pc.req.cap == cap && Requested(pc.req, pc.given) else Backs(cap, pc.it)
  }

  /**
   Whenever any path, reconciliation included, is about to call an executor or the adapter, an issued
   capability that covers the call is granted by the live durable state, although the gate reads no
   permissions; and the effect is not refused.
   */
  lemma CallsAreAuthorised(c: Config, run: Run)
    requires At(c, run).Some? && CallsOut(At(c, run).value.pc)
    ensures var w := At(c, run).value;
            && !IsRefused(w.snap, EffectIdOf(w.pc), "")
            && exists cap :: cap in w.issued && Covers(cap, w.pc) && GrantedNow(w.snap, cap)
  {
    ReachableInv(c, run);
    A.ReachableInv(c, run);
    CallIsBacked(At(c, run).value);
  }

  lemma CallIsBacked(w: World)
    requires A.Inv(w) && Inv(w) && CallsOut(w.pc)
    ensures !IsRefused(w.snap, EffectIdOf(w.pc), "")
    ensures exists cap :: cap in w.issued && Covers(cap, w.pc) && GrantedNow(w.snap, cap)
  {
    var cap: Capability;
    if w.pc.CallExecutor? {
      cap := w.pc.req.cap;
    } else {
      TrackedIntent(w);
      cap :| cap in w.issued && Backs(cap, w.pc.it);
    }
    hide A.WellNamed, Recorded, Ledgered, Queued;
    assert A.Endorsed(w.snap, cap);
    assert GrantedNow(w.snap, cap) && Covers(cap, w.pc);
  }

  lemma TrackedIntent(w: World)
    requires Ledgered(w) && Queued(w.snap, w.pc) && HasIntent(w.pc)
    ensures w.pc.it.key in w.ever && w.ever[w.pc.it.key] == w.pc.it && Backed(w.issued, w.pc.it)
  {
    hide Backed;
    if w.pc.flow.Loop? {
      assert w.snap.pending[0] == w.pc.it;
    }
    assert w.pc.it in w.snap.pending;
  }

  // ----- Refusals are permanent -----

  lemma StepExtendsRefusals(c: Config, w: World, act: Action)
    requires A.Inv(w) && Enabled(w, act)
    ensures w.snap.payload.refusals <= Next(c, w, act).snap.payload.refusals
  {
    hide Next;
    var v := Next(c, w, act);
    A.Classify(c, w, act);
    if act.Issue? && A.IssueStep(w, v, act.bootId, act.issue, act.txid) {
      A.IssueFacts(w.snap, act.bootId, act.issue, act.txid);
    }
    hide A.IssueStep, Kernel.Issue;
  }

  /** The durable refusal list only grows, in prefix order, through every operation and crash. */
  lemma {:induction false} RefusalsGrow(c: Config, early: Run, late: Run)
    requires Extends(late, early) && At(c, late).Some? && At(c, early).Some?
    ensures At(c, early).value.snap.payload.refusals <= At(c, late).value.snap.payload.refusals
  {
    hide Next;
    if late != early {
      RefusalsGrow(c, early, late.prior);
      A.ReachableInv(c, late.prior);
      StepExtendsRefusals(c, At(c, late.prior).value, late.act);
    }
  }

  /** Once an effect id is refused, no executor or adapter call for it is ever made again on any path. */
  lemma RefusedIsNeverCalled(c: Config, early: Run, late: Run, r: RefusalRecord)
    requires Extends(late, early) && At(c, late).Some? && At(c, early).Some?
    requires r in At(c, early).value.snap.payload.refusals
    ensures var pc := At(c, late).value.pc;
            CallsOut(pc) ==> EffectIdOf(pc) != r.effectId
  {
    RefusalsGrow(c, early, late);
    ReachableInv(c, late);
    var w := At(c, late).value;
    assert r in w.snap.payload.refusals;
    if CallsOut(w.pc) && EffectIdOf(w.pc) == r.effectId {
      assert IsRefused(w.snap, r.effectId, "");
    }
  }

  /** The gate never sends an intent that names a protected outcome through the unfenced interface. */
  lemma ProtectedStaysFenced(c: Config, run: Run)
    requires At(c, run).Some?
    ensures var pc := At(c, run).value.pc;
            (Unfenced(pc) ==> pc.it.outcomeKey == "") && (Fenced(pc) ==> pc.it.outcomeKey != "")
  {
    ReachableInv(c, run);
  }

  /** An intent of a past epoch, or one refused by identity or by outcome, never reaches the adapter. */
  lemma AdapterSeesOnlyClear(c: Config, run: Run)
    requires At(c, run).Some?
    ensures var w := At(c, run).value;
            Fenced(w.pc) || Unfenced(w.pc) ==>
              w.pc.it.epoch == w.snap.epoch && !IsRefused(w.snap, w.pc.it.effectId, w.pc.it.outcomeKey)
  {
    ReachableInv(c, run);
  }

  /** The loop's re-check before dropping a committed intent can never fire: the lock keeps what was examined. */
  lemma FinalGuardIsUnreachable(c: Config, run: Run)
    requires At(c, run).Some? && At(c, run).value.pc.DropCommitted?
    ensures var w := At(c, run).value;
            !IsRefused(w.snap, w.pc.it.effectId, w.pc.it.outcomeKey) && w.pc.it.epoch == w.snap.epoch
  {
    ReachableInv(c, run);
  }
}
