/** One iteration of the `reconcile_pending` loop at a time: up to the examination, and on when it refuses. */
module Iterations {
  import opened Base
  import opened Durable
  import opened Kernel
  import opened Gate
  import opened Protocol
  import opened Spoiling
  import opened Steps
  import opened Reconciliation
  import J = Journal
  import C = Calls
  import D = Delivery
  import H = JournalHealth

  /** The run continued only by steps of the operation in progress. */
  ghost predicate OnlyTicks(late: Run, base: Run) {
    late == base || (late.Do? && late.act.Tick? && OnlyTicks(late.prior, base))
  }

  lemma {:induction false} OnlyTicksOn(a: Run, b: Run, c: Run)
    requires OnlyTicks(a, b) && OnlyTicks(b, c)
    ensures OnlyTicks(a, c)
  {
    if a != b {
      OnlyTicksOn(a.prior, b, c);
    }
  }

  // ----- One intent of a pass -----

  predicate SameOutside(w: World, v: World) {
    v.ledger == w.ledger && v.applied == w.applied && v.statuses == w.statuses
  }

  /** The loop stands before the intent `x`, and the journal fits its records. */
  ghost predicate Before(w: World, x: Intent, rest: seq<Intent>) {
    && w.pc.NextIntent? && w.pc.flow.Loop? && w.pc.flow.rest == [x] + rest && w.snap.pending == [x] + rest
    && Ready(w.log, w.pc.flow.records, x, rest)
  }

  /** The loop examines `x`, whose PREPARED line is there; `was` is the journal before that line. */
  ghost predicate Examining(w: World, was: seq<J.Record>, x: Intent, rest: seq<Intent>) {
    && w.pc.Examine? && w.pc.flow.Loop? && w.pc.it == x && w.pc.flow.rest == rest && w.snap.pending == [x] + rest
    && Announced(was, w.log, w.pc.flow.records, x, rest)
  }

  lemma MoreTicks(run: Run)
    ensures OnlyTicks(Do(run, Tick), run) && OnlyTicks(Do(Do(run, Tick), Tick), run)
    ensures OnlyTicks(Do(Do(Do(run, Tick), Tick), Tick), run)
  {}

  /** The intent the journal knows is examined at once. */
  lemma ExaminesKnown(c: Config, w: World, x: Intent, rest: seq<Intent>)
    requires Before(w, x, rest) && x.key in w.pc.flow.records
    ensures var v := w.(pc := Examine(w.pc.flow.(rest := rest), x)); TickIntent(c, w) == v && Examining(v, w.log, x, rest)
  {
    TicksNext(c, w, x, rest);
    AnnouncedAlready(w.log, w.pc.flow.records, x, rest);
    hide TickIntent, Announced, Ready;
  }

  /** The intent it does not know gets its PREPARED line first. */
  lemma PreparesUnknown(c: Config, run: Run, w: World, x: Intent, rest: seq<Intent>)
    requires At(c, run) == Some(w) && Before(w, x, rest) && x.key !in w.pc.flow.records
    ensures var w1 := w.(pc := AppendPrepared(w.pc.flow.(rest := rest), x));
            var longer := w.log + [RecordOf(J.Prepared, x)];
            && TickIntent(c, w) == w1 && J.Fold(longer).Some?
            && var v := w1.(log := longer, pc := Examine(Loop(J.Fold(longer).value, rest, w.pc.flow.provided), x));
               TickIntent(c, w1) == v && Examining(v, w.log, x, rest)
  {
    TicksNext(c, w, x, rest);
    AnnouncesNew(c, run, w, x, rest, w.pc.flow.records);
    TicksLoop(c, w.(pc := AppendPrepared(w.pc.flow.(rest := rest), x)));
    hide TickIntent, Announced, Ready, At, RecordOf, J.Fold;
  }

  lemma UnknownIsExamined(c: Config, run: Run, w: World, x: Intent, rest: seq<Intent>) returns (v: World)
    requires At(c, run) == Some(w) && Before(w, x, rest) && x.key !in w.pc.flow.records
    ensures At(c, Do(Do(run, Tick), Tick)) == Some(v) && Examining(v, w.log, x, rest)
    ensures v.snap == w.snap && SameOutside(w, v) && v.pc.flow.provided == w.pc.flow.provided
  {
    PreparesUnknown(c, run, w, x, rest);
    var w1 := w.(pc := AppendPrepared(w.pc.flow.(rest := rest), x));
    v := TickIntent(c, w1);
    hide TickIntent, At, J.Fold, RecordOf, Examining, Before;
    AtTick(c, run, w);
    AtTick(c, Do(run, Tick), w1);
  }

  lemma KnownIsExamined(c: Config, run: Run, w: World, x: Intent, rest: seq<Intent>) returns (v: World)
    requires At(c, run) == Some(w) && Before(w, x, rest) && x.key in w.pc.flow.records
    ensures At(c, Do(run, Tick)) == Some(v) && Examining(v, w.log, x, rest)
    ensures v.snap == w.snap && SameOutside(w, v) && v.pc.flow.provided == w.pc.flow.provided
  {
    ExaminesKnown(c, w, x, rest);
    v := w.(pc := Examine(w.pc.flow.(rest := rest), x));
    hide TickIntent, At, Examining, Ready;
    AtTick(c, run, w);
  }

  lemma ToExamination(c: Config, run: Run, w: World, x: Intent, rest: seq<Intent>) returns (late: Run, v: World)
    requires At(c, run) == Some(w) && Before(w, x, rest)
    ensures OnlyTicks(late, run) && At(c, late) == Some(v) && Examining(v, w.log, x, rest)
    ensures v.snap == w.snap && SameOutside(w, v) && v.pc.flow.provided == w.pc.flow.provided
  {
    MoreTicks(run);
    hide At, Examining, OnlyTicks, Ready;
    if x.key in w.pc.flow.records {
      late := Do(run, Tick);
      v := KnownIsExamined(c, run, w, x, rest);
    } else {
      late := Do(Do(run, Tick), Tick);
      v := UnknownIsExamined(c, run, w, x, rest);
    }
  }

  /** An intent that passes the matching and naming checks is refused exactly when it is not clear to go ahead. */
  lemma ExaminedExactly(s: Snapshot, flow: Flow, it: Intent)
    requires flow.Loop? && it.key in flow.records && Matching(flow.records[it.key], it) && WellNamed(it)
    ensures Examined(s, flow, it) == AppendRefused(flow, it) <==> !C.Clear(s, it)
  {
    hide Matching, IsRefused, CanonicalOutcomeKey;
  }

  /** From there three steps refuse it. */
  lemma FromExamination(c: Config, run: Run, w: World, was: seq<J.Record>, x: Intent, rest: seq<Intent>)
    returns (v: World)
    requires At(c, run) == Some(w) && Examining(w, was, x, rest) && !C.Clear(w.snap, x)
    ensures At(c, Do(Do(Do(run, Tick), Tick), Tick)) == Some(v)
    ensures v.pc == NextIntent(w.pc.flow) && v.log == w.log + [RecordOf(J.Refused, x)]
    ensures v.snap == Settle(w.snap, x.key) && SameOutside(w, v)
  {
    var flow := w.pc.flow;
    UnsettleableIsRefused(c, run, w, was, flow.records, x, rest);
    ExaminedExactly(w.snap, flow, x);
    TicksExamine(c, w);
    var w1 := w.(pc := AppendRefused(flow, x));
    var w2 := w1.(log := w.log + [RecordOf(J.Refused, x)], pc := DropRefused(flow, x));
    TicksLoop(c, w1);
    RefusedCallIsOk(w2.snap, w2.issued, w2.pc);
    TicksDrop(c, w2);
    v := w2.(snap := Settle(w.snap, x.key), pc := NextIntent(flow));
    hide TickIntent, At, RecordOf, Settle, Announced, C.Clear, Examined, C.CallOk;
    AtTick(c, run, w);
    AtTick(c, Do(run, Tick), w1);
    AtTick(c, Do(Do(run, Tick), Tick), w2);
  }

  lemma RefusedCallIsOk(s: Snapshot, issued: set<Capability>, pc: Pc)
    requires pc.DropRefused?
    ensures C.CallOk(s, issued, pc)
  {}

  /** The loop has finished `x` and stands before the rest. */
  ghost predicate PastFirst(w: World, v: World, x: Intent, rest: seq<Intent>) {
    && v.pc.NextIntent? && v.pc.flow.Loop? && v.pc.flow.rest == rest && v.snap.pending == rest
    && v.snap.epoch == w.snap.epoch && v.snap.payload == w.snap.payload
    && Outcome(w.snap, w.log, x, rest, v.log, Some(v.pc.flow.records))
  }

  /** It has refused it. */
  ghost predicate RefusedOne(w: World, v: World, x: Intent, rest: seq<Intent>) {
    && PastFirst(w, v, x, rest)
    && w.pc.NextIntent? && w.pc.flow.Loop? && v.pc.flow.provided == w.pc.flow.provided
    && SameOutside(w, v) && D.Logged(v.log, J.Refused, x.key)
  }

  lemma SettledShape(c: Config, run: Run, w: World, x: Intent, rest: seq<Intent>)
    requires At(c, run) == Some(w) && w.snap.pending == [x] + rest
    ensures DistinctKeys([x] + rest)
    ensures var t := Settle(w.snap, x.key); t.pending == rest && t.epoch == w.snap.epoch && t.payload == w.snap.payload
  {
    DistinctInRun(c, run);
    SettleFirst(w.snap, x, rest);
    hide At, Settle;
  }

  /** One whole iteration that refuses its intent. */
  lemma IterationRefuses(c: Config, run: Run, w: World, x: Intent, rest: seq<Intent>) returns (late: Run, v: World)
    requires At(c, run) == Some(w) && Before(w, x, rest) && !C.Clear(w.snap, x)
    ensures OnlyTicks(late, run) && At(c, late) == Some(v) && RefusedOne(w, v, x, rest)
  {
    SettledShape(c, run, w, x, rest);
    var l, m := ToExamination(c, run, w, x, rest);
    MoreTicks(l);
    assert Announced(w.log, m.log, m.pc.flow.records, x, rest) && m.pc.flow.rest == rest && m.snap == w.snap;
    hide Announced, Outcome, RecordOf, C.Clear, At, Settle, DistinctKeys, Before, OnlyTicks, D.Logged;
    v := FromExamination(c, l, m, w.log, x, rest);
    late := Do(Do(Do(l, Tick), Tick), Tick);
    OnlyTicksOn(late, l, run);
    RefusingCloses(c, l, m, w.log, m.pc.flow.records, x, rest);
    LineIsLogged(m.log, J.Refused, x);
  }

  lemma LineIsLogged(log: seq<J.Record>, status: J.Status, it: Intent)
    ensures D.Logged(log + [RecordOf(status, it)], status, it.key)
  {
    D.LoggedGrows(log, RecordOf(status, it));
  }

  // ----- From one intent to the next -----

  /** The loop has `its` to go, and the journal fits its records. */
  ghost predicate Begun(w: World, its: seq<Intent>) {
    && w.pc.NextIntent? && w.pc.flow.Loop? && w.pc.flow.rest == its && w.snap.pending == its
    && J.Fold(w.log).Some? && H.Agrees(w.pc.flow.records, J.Fold(w.log).value, its)
  }

  lemma FirstToCome(c: Config, run: Run, w: World, its: seq<Intent>)
    requires At(c, run) == Some(w) && Begun(w, its) && its != []
    ensures Before(w, its[0], its[1..])
    ensures Settleable(w.snap, J.Fold(w.log).value, its[0]) <==>
      (HasTerminalLine(w.log, its[0].key) ==> C.Clear(w.snap, its[0]))
  {
    assert its == [its[0]] + its[1..] && its[0] in its;
    SettleableExactly(c, run, w, its[0]);
    hide J.Fold, Settleable, C.Clear, At;
  }

  /** After a first intent that could be settled, the rest stand as they did. */
  lemma RestStands(w: World, v: World, its: seq<Intent>)
    requires Begun(w, its) && its != [] && DistinctKeys(its) && PastFirst(w, v, its[0], its[1..])
    requires Settleable(w.snap, J.Fold(w.log).value, its[0])
    ensures Begun(v, its[1..])
    ensures forall x | x in its[1..] ::
      && (C.Clear(v.snap, x) <==> C.Clear(w.snap, x))
      && (HasTerminalLine(v.log, x.key) <==> HasTerminalLine(w.log, x.key))
  {
    RestHasOtherKeys(its[0], its[1..]);
    assert its == [its[0]] + its[1..];
    hide H.Agrees, Settleable, J.Fold;
    forall x | x in its[1..]
      ensures C.Clear(v.snap, x) <==> C.Clear(w.snap, x)
      ensures HasTerminalLine(v.log, x.key) <==> HasTerminalLine(w.log, x.key)
    {
      ClearAlike(w.snap, v.snap, x);
      assert Get(J.Fold(v.log).value, x.key) == Get(J.Fold(w.log).value, x.key);
      hide C.Clear;
    }
  }
}
