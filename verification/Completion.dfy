/**
 What an undisturbed `reconcile_pending` achieves. A capability admits one intent and an epoch one capability,
 so at most one pending intent is still clear to go ahead; all the others are refused.
 */
module Completion {
  import opened Base
  import opened Durable
  import opened Kernel
  import opened Gate
  import opened Protocol
  import opened Spoiling
  import opened Steps
  import opened Reconciliation
  import opened Iterations
  import J = Journal
  import A = Authorisation
  import C = Calls
  import D = Delivery
  import H = JournalHealth
  import P = Progress
  import Authority

  // ----- One intent for each capability -----

  /** Recording an intent consumes its capability's transaction id, so no two intents share one. */
  ghost predicate OnceEach(w: World) {
    && (forall k | k in w.ever :: w.ever[k].txid in w.snap.consumed)
    && (forall j, k | j in w.ever && k in w.ever && w.ever[j].txid == w.ever[k].txid :: j == k)
  }

  lemma RecordKeepsOnce(w: World, bootId: string, q: EffectRequest, params: string, protected: bool)
    requires OnceEach(w) && Check(w.snap, bootId, q, Some(params), protected).None?
    ensures OnceEach(Record(w, q, params, protected))
  {
    NotReplayed(w.snap, bootId, q, Some(params), protected);
    hide Check;
  }

  lemma NotReplayed(s: Snapshot, bootId: string, q: EffectRequest, given: Option<string>, protected: bool)
    requires Check(s, bootId, q, given, protected).None?
    ensures q.cap.claims.txid !in s.consumed
  {
    hide IsRefused, VerifyLocked, ValidateCommon;
  }

  lemma StepKeepsOnce(c: Config, w: World, act: Action)
    requires OnceEach(w) && Enabled(w, act)
    ensures OnceEach(Next(c, w, act))
  {
    if act.ExecuteProtected? || act.ExecuteRecoverable? {
      NextRecords(c, w, act);
      if Check(w.snap, act.bootId, act.req, Some(act.params), act.ExecuteProtected?).None? {
        RecordKeepsOnce(w, act.bootId, act.req, act.params, act.ExecuteProtected?);
      }
      hide Next, Check, Record, OnceEach;
    } else if act.Tick? && Working(w.pc) {
      NextOnIntent(c, w);
      IntentTickFrame(c, w);
      hide Next, TickIntent;
    } else if act.Execute? {
      if Check(w.snap, act.bootId, act.req, act.given, false).None? {
        NextExecutes(c, w, act.bootId, act.req, act.given);
      }
      hide Next, Check;
    } else {
      C.OtherStepRecords(c, w, act);
      hide Next;
    }
  }

  lemma {:induction false} ReachableOnce(c: Config, run: Run)
    requires At(c, run).Some?
    ensures OnceEach(At(c, run).value)
  {
    if run.Do? {
      ReachableOnce(c, run.prior);
      hide OnceEach, Next;
      StepKeepsOnce(c, At(c, run.prior).value, run.act);
    }
  }

  lemma ClearIsBacked(w: World, it: Intent) returns (cap: Capability)
    requires C.Ledgered(w) && it in w.snap.pending && C.Clear(w.snap, it)
    ensures it.key in w.ever && w.ever[it.key] == it
    ensures cap in w.issued && cap.claims.txid == it.txid && cap.claims.epoch == w.snap.epoch
  {
    assert C.Backed(w.issued, it);
    cap :| cap in w.issued && C.Backs(cap, it);
  }

  /** At most one pending intent is clear to go ahead: all the others belong to an earlier epoch or are refused. */
  lemma AtMostOneClear(c: Config, run: Run, a: Intent, b: Intent)
    requires At(c, run).Some?
    requires var s := At(c, run).value.snap; a in s.pending && b in s.pending && C.Clear(s, a) && C.Clear(s, b)
    ensures a == b
  {
    var w := At(c, run).value;
    A.ReachableInv(c, run);
    C.ReachableInv(c, run);
    ReachableOnce(c, run);
    hide At, C.Queued, C.CallOk, A.Endorsed, C.Clear, A.Ahead;
    var p := ClearIsBacked(w, a);
    var q := ClearIsBacked(w, b);
    assert p == q;
  }

  // ----- One intent that is clear to go ahead -----

  /** What the outside answers decides about such an intent: the authority's commit, or the adapter's report. */
  ghost predicate Welcome(c: Config, w: World, provided: map<string, string>, it: Intent) {
    && it.key in provided && provided[it.key] == it.paramsDigest
    && if it.outcomeKey != "" then P.Accepts(c.kind, w.ledger, it) else !Hopeless(w, it)
  }

  /** The adapter reports that the effect will not happen. */
  predicate Hopeless(w: World, it: Intent) {
    var s := Reported(w.applied, w.statuses, it.idemKey); s.Failed? || s.Declined?
  }

  /** The world once the outside has answered: on to the journal line, or given up. */
  ghost predicate Answered(w: World, v: World, it: Intent, yes: bool) {
    && v == w.(ledger := v.ledger, applied := v.applied, caused := v.caused, pc := v.pc)
    && Working(w.pc)
    && v.pc == if yes then AppendCommitted(w.pc.flow, it) else Idle
  }

  lemma ExaminesClear(s: Snapshot, flow: Flow, it: Intent)
    requires flow.Loop? && it.key in flow.records && Matching(flow.records[it.key], it) && WellNamed(it)
    requires C.Clear(s, it)
    ensures Examined(s, flow, it) ==
      if it.key !in flow.provided || flow.provided[it.key] != it.paramsDigest then Idle
      else if it.outcomeKey != "" then AskRefused(flow, it)
      else AskStatus(flow, it)
  {
    hide Matching, IsRefused, CanonicalOutcomeKey;
  }

  lemma AsksFirst(c: Config, w: World, it: Intent)
    requires w.pc.AskRefused? && w.pc.it == it
    ensures TickIntent(c, w) == w.(pc := if P.StepsLeft(c.kind, w.ledger, it) == 2 then Idle else AskFence(w.pc.flow, it))
  {
    TicksProtected(c, w);
    hide TickIntent, P.Accepts;
  }

  lemma AsksSecond(c: Config, w: World, it: Intent)
    requires w.pc.AskFence? && w.pc.it == it && P.StepsLeft(c.kind, w.ledger, it) != 2
    ensures TickIntent(c, w) == w.(pc := if P.StepsLeft(c.kind, w.ledger, it) == 3 then Idle else CallCommit(w.pc.flow, it))
  {
    TicksProtected(c, w);
    hide TickIntent, P.Accepts;
  }

  lemma AsksLast(c: Config, w: World, it: Intent)
    requires w.pc.CallCommit? && w.pc.it == it && P.StepsLeft(c.kind, w.ledger, it) > 3
    ensures Answered(w, TickIntent(c, w), it, P.Accepts(c.kind, w.ledger, it))
  {
    TicksProtected(c, w);
    OutsideCommit(c, w, w.pc.flow, it);
    hide TickIntent, CommitOutside, Authority.Serve;
  }

  /** The two questions and the commit of a protected intent. */
  lemma AsksAuthority(c: Config, run: Run, w: World, it: Intent) returns (late: Run, v: World)
    requires At(c, run) == Some(w) && w.pc.AskRefused? && w.pc.it == it
    ensures OnlyTicks(late, run) && At(c, late) == Some(v) && Answered(w, v, it, P.Accepts(c.kind, w.ledger, it))
  {
    MoreTicks(run);
    P.AcceptsAfterAsking(c.kind, w.ledger, it);
    AsksFirst(c, w, it);
    hide At, TickIntent, P.StepsLeft, P.Accepts, OnlyTicks;
    AtTick(c, run, w);
    late, v := Do(run, Tick), TickIntent(c, w);
    if v.pc.AskFence? {
      AsksSecond(c, v, it);
      AtTick(c, late, v);
      late, v := Do(late, Tick), TickIntent(c, v);
      if v.pc.CallCommit? {
        AsksLast(c, v, it);
        AtTick(c, late, v);
        late, v := Do(late, Tick), TickIntent(c, v);
      }
    }
  }

  lemma AsksReport(c: Config, w: World, it: Intent)
    requires w.pc.AskStatus? && w.pc.it == it
    ensures TickIntent(c, w) == w.(pc :=
      if Reported(w.applied, w.statuses, it.idemKey).Committed? then AppendCommitted(w.pc.flow, it)
      else if Hopeless(w, it) then Idle
      else CallExecute(w.pc.flow, it))
  {
    TicksRecoverable(c, w);
    hide TickIntent, Reported;
  }

  lemma ExecutesAndConfirms(c: Config, w: World, it: Intent) returns (v: World)
    requires w.pc.CallExecute? && w.pc.it == it
    ensures TickIntent(c, w) == v && v.pc == Confirm(w.pc.flow, it)
    ensures Answered(w, TickIntent(c, v), it, true)
  {
    TicksRecoverable(c, w);
    v := TickIntent(c, w);
    TicksRecoverable(c, v);
    hide TickIntent;
  }

  /** The report, and `execute` with its confirmation unless the effect is there already. */
  lemma AsksAdapter(c: Config, run: Run, w: World, it: Intent) returns (late: Run, v: World)
    requires At(c, run) == Some(w) && w.pc.AskStatus? && w.pc.it == it
    ensures OnlyTicks(late, run) && At(c, late) == Some(v) && Answered(w, v, it, !Hopeless(w, it))
  {
    MoreTicks(run);
    AsksReport(c, w, it);
    hide At, TickIntent, Reported, OnlyTicks;
    AtTick(c, run, w);
    late, v := Do(run, Tick), TickIntent(c, w);
    if v.pc.CallExecute? {
      var u := ExecutesAndConfirms(c, v, it);
      AtTick(c, late, v);
      AtTick(c, Do(late, Tick), u);
      late, v := Do(Do(late, Tick), Tick), TickIntent(c, u);
    }
  }

  /** From the examination to the outside's answer. */
  lemma GetsAnswer(c: Config, run: Run, w: World, was: seq<J.Record>, x: Intent, rest: seq<Intent>)
    returns (late: Run, v: World)
    requires At(c, run) == Some(w) && Examining(w, was, x, rest) && C.Clear(w.snap, x)
    ensures OnlyTicks(late, run) && At(c, late) == Some(v) && v.snap == w.snap && v.log == w.log
    ensures v.pc == if Welcome(c, w, w.pc.flow.provided, x) then AppendCommitted(w.pc.flow, x) else Idle
  {
    var flow := w.pc.flow;
    UnsettleableIsRefused(c, run, w, was, flow.records, x, rest);
    ExaminesClear(w.snap, flow, x);
    TicksExamine(c, w);
    MoreTicks(run);
    hide At, TickIntent, Examined, Announced, C.Clear, OnlyTicks, P.Accepts, Reported;
    AtTick(c, run, w);
    late, v := Do(run, Tick), TickIntent(c, w);
    if !v.pc.Idle? {
      var l, m := late, v;
      if v.pc.AskRefused? {
        late, v := AsksAuthority(c, l, m, x);
      } else {
        late, v := AsksAdapter(c, l, m, x);
      }
      OnlyTicksOn(late, l, run);
    }
  }

  /** The loop is about to journal COMMITTED for `x`; `was` is the journal before its iteration. */
  ghost predicate Confirmed(w: World, was: seq<J.Record>, x: Intent, rest: seq<Intent>) {
    && w.pc.AppendCommitted? && w.pc.flow.Loop? && w.pc.it == x && w.pc.flow.rest == rest && w.snap.pending == [x] + rest
    && Announced(was, w.log, w.pc.flow.records, x, rest) && C.Clear(w.snap, x) && DistinctKeys([x] + rest)
  }

  lemma JournalsCommitted(c: Config, run: Run, w: World, was: seq<J.Record>, x: Intent, rest: seq<Intent>)
    returns (v: World)
    requires At(c, run) == Some(w) && Confirmed(w, was, x, rest)
    ensures At(c, Do(run, Tick)) == Some(v) && J.Fold(v.log).Some? && CommittedLine(w.log, x, v.log)
    ensures v == w.(log := v.log, pc := DropCommitted(Loop(J.Fold(v.log).value, rest, w.pc.flow.provided), x))
  {
    TicksCommitted(c, w);
    v := TickIntent(c, w);
    hide At, TickIntent, J.Fold, RecordOf, C.Clear, Announced, DistinctKeys;
    AtTick(c, run, w);
    var longer := if CommittedLine(w.log, x, w.log) then w.log else w.log + [RecordOf(J.Committed, x)];
    CommittingCloses(c, run, w, was, w.pc.flow.records, x, rest, longer);
  }

  lemma CommittedIsLogged(log: seq<J.Record>, x: Intent, longer: seq<J.Record>)
    requires J.Fold(log).Some? && CommittedLine(log, x, longer)
    ensures D.Logged(longer, J.Committed, x.key)
  {
    if longer == log {
      D.FoldLast(log, x.key);
    } else {
      LineIsLogged(log, J.Committed, x);
    }
    hide J.Fold, RecordOf;
  }

  /** The loop has committed `x`. */
  ghost predicate CommittedOne(w: World, v: World, x: Intent, rest: seq<Intent>) {
    && PastFirst(w, v, x, rest)
    && w.pc.NextIntent? && w.pc.flow.Loop? && v.pc.flow.provided == w.pc.flow.provided
    && D.Logged(v.log, J.Committed, x.key)
  }

  /** The last two steps: the journal line and the store write. */
  lemma FinishesCommitted(c: Config, run: Run, w: World, was: seq<J.Record>, x: Intent, rest: seq<Intent>)
    returns (v: World)
    requires At(c, run) == Some(w) && Confirmed(w, was, x, rest)
    ensures At(c, Do(Do(run, Tick), Tick)) == Some(v) && v.snap == Settle(w.snap, x.key)
    ensures v.pc.NextIntent? && v.pc.flow.Loop? && v.pc.flow.rest == rest && v.pc.flow.provided == w.pc.flow.provided
    ensures Outcome(w.snap, was, x, rest, v.log, Some(v.pc.flow.records)) && D.Logged(v.log, J.Committed, x.key)
  {
    var m := JournalsCommitted(c, run, w, was, x, rest);
    CommittedIsLogged(w.log, x, m.log);
    CommittingCloses(c, run, w, was, w.pc.flow.records, x, rest, m.log);
    C.ReachableInv(c, Do(run, Tick));
    hide At, TickIntent, J.Fold, Outcome, C.Ledgered, C.Queued, C.CallOk, CommittedLine, D.Logged, Announced, C.Clear;
    TicksDrop(c, m);
    v := TickIntent(c, m);
    AtTick(c, Do(run, Tick), m);
  }

  /**
   One whole iteration for an intent that is clear to go ahead: committed if the outside agrees, else an
   exception.
   */
  lemma IterationCommits(c: Config, run: Run, w: World, x: Intent, rest: seq<Intent>) returns (late: Run, v: World)
    requires At(c, run) == Some(w) && Before(w, x, rest) && C.Clear(w.snap, x)
    ensures OnlyTicks(late, run) && At(c, late) == Some(v)
    ensures if Welcome(c, w, w.pc.flow.provided, x) then CommittedOne(w, v, x, rest) else v.pc.Idle? && v.snap == w.snap
  {
    SettledShape(c, run, w, x, rest);
    var l, m := ToExamination(c, run, w, x, rest);
    assert Announced(w.log, m.log, m.pc.flow.records, x, rest) && m.pc.flow.rest == rest && m.snap == w.snap;
    assert Welcome(c, w, w.pc.flow.provided, x) <==> Welcome(c, m, w.pc.flow.provided, x);
    hide Announced, Outcome, Welcome, C.Clear, At, Settle, DistinctKeys, Before, OnlyTicks, D.Logged;
    late, v := GetsAnswer(c, l, m, w.log, x, rest);
    OnlyTicksOn(late, l, run);
    if Welcome(c, w, w.pc.flow.provided, x) {
      var a, u := late, v;
      v := FinishesCommitted(c, a, u, w.log, x, rest);
      MoreTicks(a);
      late := Do(Do(a, Tick), Tick);
      OnlyTicksOn(late, a, run);
    }
  }

  // ----- The whole pass -----

  /** What must hold of each pending intent for the pass to end well. */
  ghost predicate EndsWell(c: Config, w: World, provided: map<string, string>, it: Intent) {
    if C.Clear(w.snap, it) then Welcome(c, w, provided, it) else !HasTerminalLine(w.log, it.key)
  }

  /** What the pass has journaled for it then. */
  ghost predicate Told(s: Snapshot, log: seq<J.Record>, it: Intent) {
    D.Logged(log, if C.Clear(s, it) then J.Committed else J.Refused, it.key)
  }

  lemma {:induction false} OnlyTicksExtends(late: Run, base: Run)
    requires OnlyTicks(late, base)
    ensures Extends(late, base)
  {
    if late != base {
      OnlyTicksExtends(late.prior, base);
    }
  }

  lemma {:induction false} RunGrowsLog(c: Config, early: Run, late: Run)
    requires Extends(late, early) && At(c, late).Some?
    ensures At(c, early).Some? && At(c, early).value.log <= At(c, late).value.log
  {
    if late != early {
      RunGrowsLog(c, early, late.prior);
      hide Next;
      H.StepGrowsLog(c, At(c, late.prior).value, late.act);
    }
  }

  /** Ticks only lengthen the journal. */
  lemma TicksGrowLog(c: Config, early: Run, late: Run)
    requires OnlyTicks(late, early) && At(c, late).Some?
    ensures At(c, early).Some? && At(c, early).value.log <= At(c, late).value.log
  {
    OnlyTicksExtends(late, early);
    hide At, OnlyTicks;
    RunGrowsLog(c, early, late);
  }

  /** After a first intent that ended well, the others end well exactly as they would have before. */
  lemma OthersEndAlike(c: Config, run: Run, w: World, v: World, its: seq<Intent>, provided: map<string, string>)
    requires At(c, run) == Some(w) && Begun(w, its) && its != [] && DistinctKeys(its)
    requires PastFirst(w, v, its[0], its[1..]) && Settleable(w.snap, J.Fold(w.log).value, its[0])
    requires C.Clear(w.snap, its[0]) || SameOutside(w, v)
    ensures forall x | x in its[1..] ::
      && (EndsWell(c, v, provided, x) <==> EndsWell(c, w, provided, x))
      && (C.Clear(v.snap, x) <==> C.Clear(w.snap, x))
  {
    RestStands(w, v, its);
    RestHasOtherKeys(its[0], its[1..]);
    assert its == [its[0]] + its[1..];
    hide At, J.Fold, Settleable, PastFirst, HasTerminalLine, DistinctKeys, C.Clear, P.Accepts, Reported;
    forall x | x in its[1..]
      ensures EndsWell(c, v, provided, x) <==> EndsWell(c, w, provided, x)
    {
      assert x in w.snap.pending && its[0] in w.snap.pending;
      if C.Clear(w.snap, its[0]) && C.Clear(w.snap, x) {
        AtMostOneClear(c, run, its[0], x);
        assert false;
      }
    }
  }

  /** How a pass over `its` ends: all of them told, or an exception, or a spoiled journal. */
  ghost predicate PassedAll(c: Config, w: World, v: World, its: seq<Intent>, provided: map<string, string>) {
    if forall x | x in its :: EndsWell(c, w, provided, x) then
      && v.pc.Idle? && v.snap.pending == [] && J.Fold(v.log).Some?
      && (forall x | x in its :: Told(w.snap, v.log, x))
    else J.Fold(v.log).None? || (v.pc.Idle? && v.snap.pending != [])
  }

  lemma PassesOn(c: Config, w: World, m: World, v: World, its: seq<Intent>, provided: map<string, string>)
    requires its != [] && EndsWell(c, w, provided, its[0]) && PassedAll(c, m, v, its[1..], provided)
    requires forall x | x in its[1..] ::
      && (EndsWell(c, m, provided, x) <==> EndsWell(c, w, provided, x))
      && (C.Clear(m.snap, x) <==> C.Clear(w.snap, x))
    requires Told(w.snap, m.log, its[0]) && m.log <= v.log
    ensures PassedAll(c, w, v, its, provided)
  {
    assert forall x :: x in its <==> x == its[0] || x in its[1..];
    hide EndsWell, C.Clear, J.Fold;
  }

  lemma {:induction false} PassRuns(c: Config, run: Run, w: World, its: seq<Intent>) returns (late: Run, v: World)
    requires At(c, run) == Some(w) && Begun(w, its)
    ensures OnlyTicks(late, run) && At(c, late) == Some(v) && PassedAll(c, w, v, its, w.pc.flow.provided)
    decreases |its|
  {
    var provided := w.pc.flow.provided;
    if its == [] {
      TicksEnd(c, w);
      hide At, J.Fold, EndsWell, Told;
      late, v := Do(run, Tick), w.(pc := Idle);
      AtTick(c, run, w);
    } else {
      DistinctInRun(c, run);
      FirstToCome(c, run, w, its);
      var l, m, ended := FirstRuns(c, run, w, its);
      hide At, J.Fold, EndsWell, Told, Settleable, Before;
      hide PastFirst, DistinctKeys, SameOutside, OnlyTicks, C.Clear, HasTerminalLine;
      if ended {
        late, v := l, m;
      } else {
        OthersEndAlike(c, run, w, m, its, provided);
        RestStands(w, m, its);
        late, v := PassRuns(c, l, m, its[1..]);
        TicksGrowLog(c, l, late);
        PassesOn(c, w, m, v, its, provided);
        OnlyTicksOn(late, l, run);
      }
    }
  }

  /** The first intent of a pass: either the pass is decided there, or it goes on with the rest. */
  lemma FirstRuns(c: Config, run: Run, w: World, its: seq<Intent>) returns (late: Run, v: World, ended: bool)
    requires At(c, run) == Some(w) && Begun(w, its) && its != [] && Before(w, its[0], its[1..])
    requires Settleable(w.snap, J.Fold(w.log).value, its[0]) <==>
      (HasTerminalLine(w.log, its[0].key) ==> C.Clear(w.snap, its[0]))
    ensures OnlyTicks(late, run) && At(c, late) == Some(v)
    ensures ended ==> PassedAll(c, w, v, its, w.pc.flow.provided)
    ensures !ended ==>
      && EndsWell(c, w, w.pc.flow.provided, its[0]) && Settleable(w.snap, J.Fold(w.log).value, its[0])
      && PastFirst(w, v, its[0], its[1..]) && v.pc.flow.provided == w.pc.flow.provided
      && Told(w.snap, v.log, its[0]) && (C.Clear(w.snap, its[0]) || SameOutside(w, v))
  {
    var x := its[0];
    assert x in its;
    hide At, J.Fold, Before, OnlyTicks, C.Clear, HasTerminalLine, Settleable, Welcome, D.Logged;
    if C.Clear(w.snap, x) {
      late, v := IterationCommits(c, run, w, x, its[1..]);
      ended := !Welcome(c, w, w.pc.flow.provided, x);
    } else {
      late, v := IterationRefuses(c, run, w, x, its[1..]);
      ended := HasTerminalLine(w.log, x.key);
    }
  }

  // ----- Every operation ends -----

  /** A bound on the steps an operation still takes. */
  function Budget(pc: Pc): nat {
    match pc
    case Idle => 0
    case CallExecutor(_, _) => 1
    case PubFence(_, _) => 6
    case PubAsk(_, _) => 5
    case PubRefuse(_, _) => 4
    case PubConfirm(_, _) => 3
    case PubCompare(_, _) => 2
    case PubWrite(_) => 1
    case NextIntent(flow) => ToCome(flow)
    case _ => Stage(pc) + ToCome(pc.flow)
  }

  /** The steps for the intents to come. */
  function ToCome(flow: Flow): nat {
    1 + if flow.Loop? then 12 * |flow.rest| else 0
  }

  function Stage(pc: Pc): nat {
    match pc
    case AppendPrepared(_, _) => 11
    case Examine(_, _) => 10
    case AskRefused(_, _) => 9
    case AskFence(_, _) => 8
    case CallCommit(_, _) => 7
    case AskStatus(_, _) => 9
    case CallExecute(_, _) => 8
    case Confirm(_, _) => 7
    case AppendCommitted(_, _) => 6
    case AppendRefused(_, _) => 6
    case _ => 5
  }

  lemma IntentTickDescends(c: Config, w: World)
    requires Working(w.pc)
    ensures Budget(TickIntent(c, w).pc) < Budget(w.pc)
  {
    IntentTickSuccessor(c, w);
    var next := TickIntent(c, w).pc;
    hide TickIntent, Examined, C.Clear, TakeNext, Stage;
    if w.pc.NextIntent? {
      NextDescends(w.pc.flow);
    } else if !next.Idle? {
      StageDescends(w.snap, w.pc, next);
    }
  }

  lemma NextDescends(flow: Flow)
    ensures Budget(TakeNext(flow)) < Budget(NextIntent(flow))
  {}

  lemma StageDescends(s: Snapshot, pc: Pc, next: Pc)
    requires C.HasIntent(pc) && Successor(s, pc, next) && !next.Idle?
    ensures Budget(next) < Budget(pc)
  {
    if pc.Examine? {
      C.ExamineHandsOver(s, pc.flow, pc.it);
    }
    hide Examined, C.Clear, TakeNext;
  }

  lemma PublishTickDescends(c: Config, w: World)
    requires Publishing(w.pc)
    ensures Budget(TickPublish(c, w).pc) < Budget(w.pc)
  {
    TicksPublish(c, w);
    hide TickPublish, Authority.Serve;
  }

  lemma TickDescends(c: Config, w: World)
    requires !w.pc.Idle?
    ensures Enabled(w, Tick) && Budget(Next(c, w, Tick).pc) < Budget(w.pc)
  {
    if Working(w.pc) {
      IntentTickDescends(c, w);
      NextOnIntent(c, w);
      hide Next, TickIntent, Budget;
    } else if Publishing(w.pc) {
      PublishTickDescends(c, w);
      assert Next(c, w, Tick) == TickPublish(c, w) by { hide TickPublish; }
      hide Next, TickPublish, Budget;
    } else {
      hide TickIntent, TickPublish;
    }
  }

  lemma TickFromRun(c: Config, run: Run, w: World) returns (v: World)
    requires At(c, run) == Some(w) && !w.pc.Idle?
    ensures At(c, Do(run, Tick)) == Some(v) && Budget(v.pc) < Budget(w.pc)
  {
    TickDescends(c, w);
    v := Next(c, w, Tick);
    hide At, Next, Budget, Enabled;
    AtDo(c, run, Tick, w);
  }

  /** Left alone, every operation returns or raises: whatever its state, at most `Budget` of its own steps remain. */
  lemma {:induction false} OperationsEnd(c: Config, run: Run, w: World) returns (n: nat, v: World)
    requires At(c, run) == Some(w)
    ensures n <= Budget(w.pc) && At(c, P.Ticks(run, n)) == Some(v) && v.pc.Idle?
    decreases Budget(w.pc)
  {
    hide At, Budget;
    if w.pc.Idle? {
      n, v := 0, w;
    } else {
      var u := TickFromRun(c, run, w);
      var m;
      m, v := OperationsEnd(c, Do(run, Tick), u);
      n := m + 1;
      TicksShift(run, m);
    }
  }

  lemma {:induction false} TicksShift(run: Run, n: nat)
    ensures P.Ticks(Do(run, Tick), n) == P.Ticks(run, n + 1)
  {
    if n > 0 {
      TicksShift(run, n - 1);
    }
  }

  lemma {:induction false} TicksAreTicks(run: Run, n: nat)
    ensures OnlyTicks(P.Ticks(run, n), run)
  {
    if n > 0 {
      TicksAreTicks(run, n - 1);
    }
  }

  // ----- The call -----

  /** Reconcile, and let the call run to its end. */
  lemma ReconciliationRuns(c: Config, run: Run, w: World, provided: map<string, string>) returns (late: Run, v: World)
    requires At(c, run) == Some(w) && w.pc.Idle? && J.Fold(w.log).Some?
    ensures OnlyTicks(late, Do(run, Reconcile(provided))) && At(c, late) == Some(v)
    ensures PassedAll(c, w, v, w.snap.pending, provided)
  {
    NextReconciles(c, w, provided);
    hide At, Next, J.Fold, EndsWell, Told;
    var m := w.(pc := NextIntent(Loop(J.Fold(w.log).value, w.snap.pending, provided)));
    AtDo(c, run, Reconcile(provided), w);
    late, v := PassRuns(c, Do(run, Reconcile(provided)), m, w.snap.pending);
  }

  lemma ToldIsClosed(s: Snapshot, log: seq<J.Record>, it: Intent)
    requires J.Fold(log).Some? && Told(s, log, it)
    ensures OneTerminal(log, it.key)
  {
    TerminalIsKnown(log, it.key);
    ClosedExactly(log, it.key);
    hide J.Fold, C.Clear, D.Logged, OneTerminal;
  }

  /** What the call started from `w` has done when it ends in `v`. */
  ghost predicate Reconciled(w: World, v: World) {
    && v.snap.pending == [] && J.Acceptable(v.log)
    && forall x | x in w.snap.pending :: Told(w.snap, v.log, x) && OneTerminal(v.log, x.key)
  }

  lemma PassIsReconciled(c: Config, w: World, v: World, provided: map<string, string>)
    requires PassedAll(c, w, v, w.snap.pending, provided) && v.pc.Idle?
    ensures if forall x | x in w.snap.pending :: EndsWell(c, w, provided, x) then Reconciled(w, v)
            else v.snap.pending != [] || !J.Acceptable(v.log)
  {
    J.FoldAccepts(v.log);
    hide J.Fold, J.Acceptable, EndsWell, Told, OneTerminal;
    if forall x | x in w.snap.pending :: EndsWell(c, w, provided, x) {
      forall x | x in w.snap.pending ensures OneTerminal(v.log, x.key) {
        ToldIsClosed(w.snap, v.log, x);
      }
    }
  }

  /**
   Left alone, `reconcile_pending` ends. It ends with nothing pending and an acceptable journal exactly when the
   journal was acceptable, the outside welcomes the one intent still clear to go ahead, and none of the others has
   its terminal line. Then each has exactly one: COMMITTED if it was clear to go ahead, REFUSED if not.
   */
  lemma ReconciliationEndsWellExactly(c: Config, run: Run, provided: map<string, string>) returns (late: Run)
    requires At(c, run).Some? && At(c, run).value.pc.Idle?
    ensures OnlyTicks(late, Do(run, Reconcile(provided)))
    ensures At(c, late).Some? && At(c, late).value.pc.Idle?
    ensures var (w, v) := (At(c, run).value, At(c, late).value);
            if J.Acceptable(w.log) && forall x | x in w.snap.pending :: EndsWell(c, w, provided, x) then Reconciled(w, v)
            else v.snap.pending != [] || !J.Acceptable(v.log)
  {
    var w := At(c, run).value;
    J.FoldAccepts(w.log);
    hide At, J.Fold, J.Acceptable, EndsWell, Told, Reconciled, OnlyTicks;
    if J.Fold(w.log).None? {
      late := Do(run, Reconcile(provided));
      NothingBegins(c, run, w, provided);
    } else {
      var v;
      late, v := ReconciliationRuns(c, run, w, provided);
      if v.pc.Idle? {
        PassIsReconciled(c, w, v, provided);
      } else {
        late := SpoiledEnds(c, late, v, Do(run, Reconcile(provided)));
      }
    }
  }

  lemma NothingBegins(c: Config, run: Run, w: World, provided: map<string, string>)
    requires At(c, run) == Some(w) && w.pc.Idle? && J.Fold(w.log).None?
    ensures At(c, Do(run, Reconcile(provided))) == Some(w)
    ensures OnlyTicks(Do(run, Reconcile(provided)), Do(run, Reconcile(provided)))
  {
    NextReconciles(c, w, provided);
    hide At, Next, J.Fold;
    AtDo(c, run, Reconcile(provided), w);
  }

  /** A pass that has spoiled the journal ends too, and the journal stays spoiled. */
  lemma SpoiledEnds(c: Config, run: Run, w: World, base: Run) returns (late: Run)
    requires At(c, run) == Some(w) && OnlyTicks(run, base) && J.Fold(w.log).None?
    ensures OnlyTicks(late, base) && At(c, late).Some?
    ensures At(c, late).value.pc.Idle? && !J.Acceptable(At(c, late).value.log)
  {
    var n, v := OperationsEnd(c, run, w);
    late := P.Ticks(run, n);
    TicksAreTicks(run, n);
    hide At, J.Fold, J.Acceptable, OnlyTicks, P.Ticks;
    OnlyTicksOn(late, run, base);
    TicksGrowLog(c, run, late);
    StaysSpoiled(w.log, v.log);
    J.FoldAccepts(v.log);
  }
}
