/**
 What the gate lets through, in terms of the durable records: which calls it admits, which pending intents may
 still go ahead, and that nothing a recorded refusal names, by effect or by outcome, is acted on again.
 */
module Acceptance {
  import opened Base
  import opened Durable
  import opened Kernel
  import opened Gate
  import opened Protocol
  import opened Spoiling
  import opened Steps
  import A = Authorisation
  import C = Calls
  import D = Delivery
  import J = Journal
  import Completion
  import Iterations

  /** An intent on record may go ahead exactly in its own epoch and while no recorded refusal names it. */
  lemma ClearExactly(c: Config, run: Run, it: Intent)
    requires At(c, run).Some? && it.key in At(c, run).value.ever && At(c, run).value.ever[it.key] == it
    ensures var s := At(c, run).value.snap;
            C.Clear(s, it) <==> it.epoch == s.epoch && !NamedIn(s, it.effectId, it.outcomeKey)
  {
    ReachableInv(c, run);
    hide At, Barred, NotYet, Unlogged, NamedIn, IsRefused;
    NamesAreFormed(At(c, run).value.snap, it);
  }

  lemma NamesAreFormed(s: Snapshot, it: Intent)
    requires WellNamed(it) && CanonicalEffectId(it.effectId)
    ensures IsRefused(s, it.effectId, it.outcomeKey) <==> NamedIn(s, it.effectId, it.outcomeKey)
  {
    RefusedExactly(s, it.effectId, it.outcomeKey);
    SyntaxExactly(it.effectId);
    SyntaxExactly(it.outcomeKey);
    hide IsRefused, NamedIn, Printable, LowerHex, CanonicalEffectId, CanonicalOutcomeKey;
  }

  lemma NamedByOutcome(s: Snapshot, r: RefusalRecord, effectId: string)
    requires r in s.payload.refusals && r.outcomeKey != ""
    ensures NamedIn(s, effectId, r.outcomeKey)
  {
    var i :| 0 <= i < |s.payload.refusals| && s.payload.refusals[i] == r;
  }

  lemma FencedIsUnnamed(s: Snapshot, issued: set<Capability>, pc: Pc)
    requires C.CallOk(s, issued, pc) && C.Fenced(pc)
    ensures !NamedIn(s, pc.it.effectId, pc.it.outcomeKey)
  {
    RefusedExactly(s, pc.it.effectId, pc.it.outcomeKey);
    hide IsRefused, NamedIn, Printable, LowerHex;
  }

  /**
   Once a refusal of an outcome is on record, no step ever stands before a fenced call for that outcome again,
   whatever effect id and epoch the call is made under.
   */
  lemma RefusedOutcomeIsNeverCalled(c: Config, early: Run, late: Run, r: RefusalRecord)
    requires Extends(late, early) && At(c, late).Some? && At(c, early).Some?
    requires r in At(c, early).value.snap.payload.refusals && r.outcomeKey != ""
    ensures var pc := At(c, late).value.pc;
            pc.AskRefused? || pc.AskFence? || pc.CallCommit? ==> pc.it.outcomeKey != r.outcomeKey
  {
    var s, w := At(c, early).value.snap, At(c, late).value;
    C.RefusalsGrow(c, early, late);
    C.ReachableInv(c, late);
    hide At, C.Ledgered, C.Queued, C.CallOk, NamedIn;
    if C.Fenced(w.pc) {
      FencedIsUnnamed(w.snap, w.issued, w.pc);
      NamedByOutcome(w.snap, r, w.pc.it.effectId);
    }
  }

  /** A call that a recorded refusal names is denied, whatever else is in order. */
  lemma NamedIsDenied(s: Snapshot, bootId: string, q: EffectRequest, given: Option<string>, protected: bool)
    requires NamedIn(s, q.effectId, if protected then q.cap.claims.outcomeKey else "")
    ensures Check(s, bootId, q, given, protected).Some?
  {
    CheckAnswers(s, bootId, q, given, protected);
    hide Check, NamedIn, VerifyLocked, Printable, LowerHex;
  }

  /**
   In every reachable state the gate admits a call exactly when the capability was issued in this epoch by this
   boot for this principal, domain and action, and for this effect, outcome and parameters where it is bound to
   them; no recorded refusal names the effect or the outcome; and neither the capability nor the key is spent.
   */
  lemma AdmittedExactly(c: Config, run: Run, bootId: string, q: EffectRequest, given: Option<string>, protected: bool)
    requires At(c, run).Some? && Genuine(At(c, run).value, q.cap)
    ensures var (w, d) := (At(c, run).value, q.cap.claims);
            Check(w.snap, bootId, q, given, protected).None? <==>
              && q.cap in w.issued && d.epoch == w.snap.epoch && d.bootId == bootId && d.paramsDigest != ""
              && d.principal == q.principal && d.domain == q.domain && d.action == q.action == q.effectClass
              && q.action in ["READ", "WRITE", "NETWORK", "PROCESS"]
              && Printable(q.effectId) && (d.effectId == "" || d.effectId == q.effectId)
              && (protected ==> d.outcomeKey != "" && d.outcomeKey == q.outcomeKey)
              && (given.Some? ==> given.value == d.paramsDigest)
              && !NamedIn(w.snap, q.effectId, if protected then d.outcomeKey else "")
              && {d.nonce, d.txid, d.txid + ":" + q.effectId} !! w.snap.consumed
  {
    var w := At(c, run).value;
    CheckAnswers(w.snap, bootId, q, given, protected);
    A.VerifiesExactly(c, run, bootId, q.cap, q.principal, q.domain, q.action, q.effectClass);
    A.ReachableInv(c, run);
    SyntaxExactly(q.cap.claims.outcomeKey);
    hide At, Check, NamedIn, VerifyLocked, Printable, LowerHex, Genuine, A.Ahead;
    if q.cap in w.issued {
      assert A.Endorsed(w.snap, q.cap);
    }
  }

  /** The journal's record says of the intent's five identifying fields what the intent says. */
  ghost predicate Agreeing(records: map<string, J.Record>, it: Intent) {
    && it.key in records
    && var f := records[it.key].fields;
       && Get(f, "capability_txid") == Some(it.txid) && Get(f, "effect_id") == Some(it.effectId)
       && Get(f, "idempotency_key") == Some(it.idemKey) && Get(f, "effect_class") == Some(it.effectClass)
       && Get(f, "params_digest") == Some(it.paramsDigest)
  }

  lemma MatchingExactly(r: J.Record, it: Intent)
    ensures Matching(r, it) <==> Agreeing(map[it.key := r], it)
  {
    J.FieldsExactly(r, RecordOf(J.Prepared, it));
    LineSays(J.Prepared, it);
    hide J.SameFields, RecordOf;
  }

  /** What the loop does about an intent it has journaled, in any state: raise, refuse it, or ask the outside. */
  lemma ExaminationAnswers(s: Snapshot, flow: Flow, it: Intent)
    requires flow.Loop?
    ensures var named := Agreeing(flow.records, it) && (it.outcomeKey == "" || LowerHex(it.outcomeKey));
            var barred := it.epoch != s.epoch || !Printable(it.effectId) || NamedIn(s, it.effectId, it.outcomeKey);
            var given := it.key in flow.provided && flow.provided[it.key] == it.paramsDigest;
            Examined(s, flow, it) ==
              if named && barred then AppendRefused(flow, it)
              else if named && given then (if it.outcomeKey == "" then AskStatus(flow, it) else AskRefused(flow, it))
              else Idle
  {
    if it.key in flow.records {
      MatchingExactly(flow.records[it.key], it);
    }
    RefusedExactly(s, it.effectId, it.outcomeKey);
    SyntaxExactly(it.outcomeKey);
    hide Matching, IsRefused, NamedIn, Printable, LowerHex, CanonicalOutcomeKey;
  }

  /** The last check of the loop, in any state: a committed intent that is out of date or named raises and stays. */
  lemma FinishAnswers(w: World, flow: Flow, it: Intent)
    ensures var barred := it.epoch != w.snap.epoch || !Printable(it.effectId)
                          || (it.outcomeKey != "" && !LowerHex(it.outcomeKey))
                          || NamedIn(w.snap, it.effectId, it.outcomeKey);
            FinishCommitted(w, flow, it) ==
              if flow.Loop? && barred then w.(pc := Idle)
              else w.(snap := Settle(w.snap, it.key), pc := if flow.Loop? then NextIntent(flow) else Idle)
  {
    RefusedExactly(w.snap, it.effectId, it.outcomeKey);
    hide IsRefused, NamedIn, Printable, LowerHex, Settle;
  }

  lemma ExaminesNamed(s: Snapshot, flow: Flow, it: Intent)
    requires flow.Loop? && it.key in flow.records && Matching(flow.records[it.key], it)
    requires WellNamed(it) && NamedIn(s, it.effectId, it.outcomeKey)
    ensures Examined(s, flow, it) == AppendRefused(flow, it)
  {
    RefusedExactly(s, it.effectId, it.outcomeKey);
    hide IsRefused, NamedIn, Matching, Printable, LowerHex;
  }

  lemma RefusingTicks(c: Config, w: World, flow: Flow, it: Intent)
    requires w.pc == AppendRefused(flow, it)
    ensures var w2 := w.(log := w.log + [RecordOf(J.Refused, it)], pc := DropRefused(flow, it));
            TickIntent(c, w) == w2 && TickIntent(c, w2) == w2.(snap := Settle(w.snap, it.key), pc := Resume(flow))
  {
    var w2 := w.(log := w.log + [RecordOf(J.Refused, it)], pc := DropRefused(flow, it));
    TicksLoop(c, w);
    Iterations.RefusedCallIsOk(w2.snap, w2.issued, w2.pc);
    TicksDrop(c, w2);
    hide TickIntent, RecordOf, Settle, C.CallOk;
  }

  lemma RefusingRun(c: Config, run: Run, w: World, flow: Flow, it: Intent)
    requires At(c, run) == Some(w) && w.pc == AppendRefused(flow, it)
    ensures At(c, Do(Do(run, Tick), Tick)) ==
      Some(w.(log := w.log + [RecordOf(J.Refused, it)], snap := Settle(w.snap, it.key), pc := Resume(flow)))
  {
    RefusingTicks(c, w, flow, it);
    var w2 := w.(log := w.log + [RecordOf(J.Refused, it)], pc := DropRefused(flow, it));
    hide At, TickIntent, Settle, RecordOf, Resume;
    AtTick(c, run, w);
    AtTick(c, Do(run, Tick), w2);
  }

  lemma FormedInRun(c: Config, run: Run, w: World)
    requires At(c, run) == Some(w) && C.HasIntent(w.pc)
    ensures WellNamed(w.pc.it)
  {
    C.ReachableInv(c, run);
    C.TrackedIntent(w);
    ReachableInv(c, run);
    hide At, C.Ledgered, C.Queued, C.CallOk, C.Backed, Barred, NotYet, Unlogged, WellNamed;
  }

  /** The loop refuses a pending intent that a recorded refusal names: journal line, store write, next intent. */
  lemma LoopRefusesNamed(c: Config, run: Run, w: World, flow: Flow, it: Intent)
    requires At(c, run) == Some(w) && w.pc == Examine(flow, it)
    requires flow.Loop? && it.key in flow.records && Matching(flow.records[it.key], it)
    requires NamedIn(w.snap, it.effectId, it.outcomeKey)
    ensures At(c, Do(run, Tick)) == Some(w.(pc := AppendRefused(flow, it)))
    ensures At(c, Do(Do(Do(run, Tick), Tick), Tick)) ==
      Some(w.(log := w.log + [RecordOf(J.Refused, it)], snap := Settle(w.snap, it.key), pc := NextIntent(flow)))
  {
    FormedInRun(c, run, w);
    ExaminesNamed(w.snap, flow, it);
    TicksExamine(c, w);
    var w1 := w.(pc := AppendRefused(flow, it));
    hide At, TickIntent, Matching, NamedIn, Examined, Settle, RecordOf, WellNamed;
    AtTick(c, run, w);
    RefusingRun(c, Do(run, Tick), w1, flow, it);
  }

  /** A reconciliation that ends well has journaled REFUSED for every pending intent that a recorded refusal named. */
  lemma NamedIsToldRefused(c: Config, run: Run, v: World, x: Intent)
    requires At(c, run).Some? && Completion.Reconciled(At(c, run).value, v)
    requires var s := At(c, run).value.snap; x in s.pending && NamedIn(s, x.effectId, x.outcomeKey)
    ensures D.Logged(v.log, J.Refused, x.key)
  {
    C.ReachableInv(c, run);
    hide At, NamedIn, C.Queued, C.CallOk, C.Backed, D.Logged;
    ClearExactly(c, run, x);
    assert Completion.Told(At(c, run).value.snap, v.log, x);
    hide C.Clear;
  }
}
