/** What one crash at the wrong moment, followed by a refusal and a reconciliation, does to the journal. */
module CrashScenarios {
  import opened Base
  import opened Durable
  import opened Gate
  import opened Protocol
  import opened Spoiling
  import opened Steps
  import opened Reconciliation
  import opened Iterations
  import J = Journal
  import A = Authorisation
  import C = Calls
  import D = Delivery
  import H = JournalHealth
  import Authority
  import Fencing
  import Refusal

  // ----- A pass of refusals -----

  /** A pass begins with `its`, none of them clear to go ahead. */
  ghost predicate AllBarred(w: World, its: seq<Intent>) {
    Begun(w, its) && forall x | x in its :: !C.Clear(w.snap, x)
  }

  /**
   The pass refuses one intent after the other; as long as none before the `k`-th has its terminal line, it
   reaches that one, and spoils the journal there exactly when that one has.
   */
  lemma {:induction false} RefusesUpTo(c: Config, run: Run, w: World, its: seq<Intent>, k: nat)
    returns (late: Run, v: World)
    requires At(c, run) == Some(w) && AllBarred(w, its) && k < |its|
    requires forall j | 0 <= j < k :: !HasTerminalLine(w.log, its[j].key)
    ensures OnlyTicks(late, run) && At(c, late) == Some(v)
    ensures D.Logged(v.log, J.Refused, its[k].key) && v.ledger == w.ledger && v.applied == w.applied
    ensures J.Fold(v.log).None? <==> HasTerminalLine(w.log, its[k].key)
    decreases k
  {
    FirstToCome(c, run, w, its);
    FirstIsBarred(w, its);
    DistinctInRun(c, run);
    hide At, AllBarred, Begun, RefusedOne, Before, D.Logged, J.Fold, HasTerminalLine, Settleable, DistinctKeys, C.Clear;
    var l, m := IterationRefuses(c, run, w, its[0], its[1..]);
    FirstVerdict(w, m, its[0], its[1..]);
    if k == 0 {
      late, v := l, m;
    } else {
      RestIsBarred(w, m, its, k);
      late, v := RefusesUpTo(c, l, m, its[1..], k - 1);
      OnlyTicksOn(late, l, run);
    }
  }

  lemma FirstIsBarred(w: World, its: seq<Intent>)
    requires AllBarred(w, its) && its != []
    ensures !C.Clear(w.snap, its[0]) && Begun(w, its)
  {
    assert its[0] in its;
    hide C.Clear, Begun;
  }

  /** Refusing an intent that is not clear to go ahead spoils the journal exactly over its terminal line. */
  lemma FirstVerdict(w: World, m: World, x: Intent, rest: seq<Intent>)
    requires RefusedOne(w, m, x, rest) && !C.Clear(w.snap, x) && J.Fold(w.log).Some?
    requires Settleable(w.snap, J.Fold(w.log).value, x) <==> (HasTerminalLine(w.log, x.key) ==> C.Clear(w.snap, x))
    ensures J.Fold(m.log).None? <==> HasTerminalLine(w.log, x.key)
    ensures D.Logged(m.log, J.Refused, x.key) && m.ledger == w.ledger && m.applied == w.applied
  {
    hide J.Fold, Settleable, HasTerminalLine, D.Logged, C.Clear, H.Agrees;
  }

  lemma RestIsBarred(w: World, m: World, its: seq<Intent>, k: nat)
    requires AllBarred(w, its) && 0 < k < |its| && DistinctKeys(its) && RefusedOne(w, m, its[0], its[1..])
    requires Settleable(w.snap, J.Fold(w.log).value, its[0])
    requires forall j | 0 <= j < k :: !HasTerminalLine(w.log, its[j].key)
    ensures AllBarred(m, its[1..]) && its[1..][k - 1] == its[k]
    ensures forall j | 0 <= j < k - 1 :: !HasTerminalLine(m.log, its[1..][j].key)
    ensures HasTerminalLine(m.log, its[k].key) <==> HasTerminalLine(w.log, its[k].key)
  {
    RestStands(w, m, its);
    hide J.Fold, Settleable, HasTerminalLine, D.Logged, C.Clear, Begun, PastFirst, DistinctKeys;
    assert forall x :: x in its[1..] ==> x in its;
    assert its[1..][k - 1] == its[k] && its[k] in its[1..];
    forall j | 0 <= j < k - 1 ensures !HasTerminalLine(m.log, its[1..][j].key) {
      assert its[1..][j] == its[j + 1] && its[1..][j] in its[1..];
    }
  }

  // ----- The two scenarios -----

  /** Crash, publish a refusal, begin a reconciliation. */
  function Restarted(run: Run, r: Refusal.RefusalIntent, provided: map<string, string>): Run {
    Do(Do(Do(run, Crash), CommitRefusal(r)), Reconcile(provided))
  }

  lemma CrashThenRefusal(c: Config, run: Run, w: World, r: Refusal.RefusalIntent) returns (v: World)
    requires At(c, run) == Some(w) && Refusal.Verify(c.creds, r) && w.snap.epoch < r.body.targetEpoch
    ensures At(c, Do(Do(run, Crash), CommitRefusal(r))) == Some(v)
    ensures v.pc.Idle? && v.log == w.log && v.ledger == w.ledger && v.applied == w.applied
    ensures v.snap.pending == w.snap.pending && v.snap.epoch == r.body.targetEpoch
    ensures v.snap == Refusal.AppendRefusal(w.snap, r)
  {
    var w1 := w.(pc := Idle, torn := w.torn || H.Dropping(w.pc));
    v := w1.(snap := Refusal.AppendRefusal(w.snap, r));
    NextCrashes(c, w);
    NextCommits(c, w1, r);
    hide At, Next, Refusal.Verify, Refusal.HasRefusal;
    AtDo(c, run, Crash, w);
    AtDo(c, Do(run, Crash), CommitRefusal(r), w1);
  }

  /** Whatever was pending is barred by the refusal's later epoch, and the pass begins with it. */
  lemma RestartBars(c: Config, run: Run, w: World, r: Refusal.RefusalIntent, provided: map<string, string>)
    returns (v: World)
    requires At(c, run) == Some(w) && Refusal.Verify(c.creds, r) && w.snap.epoch < r.body.targetEpoch
    requires J.Fold(w.log).Some?
    ensures At(c, Restarted(run, r, provided)) == Some(v) && AllBarred(v, w.snap.pending)
    ensures v.log == w.log && v.ledger == w.ledger && v.applied == w.applied
  {
    PendingEpochs(c, run, w);
    var m := CrashThenRefusal(c, run, w, r);
    NextReconciles(c, m, provided);
    hide At, Next, J.Fold, Refusal.Verify, IsRefused;
    v := m.(pc := NextIntent(Loop(J.Fold(w.log).value, w.snap.pending, provided)));
    AtDo(c, Do(Do(run, Crash), CommitRefusal(r)), Reconcile(provided), m);
  }

  lemma PendingEpochs(c: Config, run: Run, w: World)
    requires At(c, run) == Some(w)
    ensures forall x | x in w.snap.pending :: x.epoch <= w.snap.epoch
  {
    C.ReachableInv(c, run);
    A.ReachableInv(c, run);
    forall x | x in w.snap.pending ensures x.epoch <= w.snap.epoch {
      EpochsPassed(w, x.key);
    }
    hide At, A.Inv, C.Queued, C.CallOk, C.Backed;
  }

  /** An intent about to be dropped has its terminal line. */
  lemma DroppingHasTerminal(c: Config, run: Run, w: World)
    requires At(c, run) == Some(w) && w.pc.DropCommitted? && J.Fold(w.log).Some?
    ensures w.pc.it in w.snap.pending && HasTerminalLine(w.log, w.pc.it.key)
  {
    DroppingIsRecorded(c, run, w);
    QueuedIsPending(w);
    TerminalIsKnown(w.log, w.pc.it.key);
    hide At, J.Fold, C.Queued, D.Terminal;
  }

  lemma DroppingIsRecorded(c: Config, run: Run, w: World)
    requires At(c, run) == Some(w) && w.pc.DropCommitted?
    ensures C.Queued(w.snap, w.pc) && C.HasIntent(w.pc) && D.Terminal(w.log, w.pc.it.key)
  {
    C.ReachableInv(c, run);
    D.ReachableInv(c, run);
    hide At, C.Ledgered, C.Queued, C.CallOk, D.Inv;
    AccountedFor(c, w);
    hide D.Terminal;
  }

  lemma AccountedFor(c: Config, w: World)
    requires D.Inv(c, w) && w.pc.DropCommitted?
    ensures D.Terminal(w.log, w.pc.it.key)
  {
    hide D.Terminal, D.Honest, D.Once, D.Announced, D.Loaded, D.Restates;
  }

  lemma QueuedIsPending(w: World)
    requires C.Queued(w.snap, w.pc) && C.HasIntent(w.pc)
    ensures w.pc.it in w.snap.pending
  {
    if w.pc.flow.Loop? {
      assert w.snap.pending[0] == w.pc.it;
    }
  }

  /** The first pending intent with a terminal line. */
  lemma {:induction false} FirstTerminal(log: seq<J.Record>, its: seq<Intent>) returns (k: nat)
    requires exists x :: x in its && HasTerminalLine(log, x.key)
    ensures k < |its| && HasTerminalLine(log, its[k].key) && forall j | 0 <= j < k :: !HasTerminalLine(log, its[j].key)
  {
    hide HasTerminalLine;
    if HasTerminalLine(log, its[0].key) {
      return 0;
    }
    var x :| x in its && HasTerminalLine(log, x.key);
    assert its == [its[0]] + its[1..];
    assert x in its[1..];
    var n := FirstTerminal(log, its[1..]);
    forall j | 0 <= j < n + 1 ensures !HasTerminalLine(log, its[j].key) {
      assert j > 0 ==> its[1..][j - 1] == its[j];
    }
    return n + 1;
  }

  /**
   How a crash spoils the journal. From every reachable state between a COMMITTED line and the store write, with
   an acceptable journal: after a crash there, any later refusal and one reconciliation, the journal is never
   accepted again.
   */
  lemma CrashThenRefusalSpoils(c: Config, run: Run, r: Refusal.RefusalIntent, provided: map<string, string>)
    returns (late: Run)
    requires At(c, run).Some? && At(c, run).value.pc.DropCommitted? && J.Acceptable(At(c, run).value.log)
    requires Refusal.Verify(c.creds, r) && At(c, run).value.snap.epoch < r.body.targetEpoch
    ensures OnlyTicks(late, Restarted(run, r, provided))
    ensures At(c, late).Some? && !J.Acceptable(At(c, late).value.log)
  {
    var w := At(c, run).value;
    J.FoldAccepts(w.log);
    DroppingHasTerminal(c, run, w);
    hide At, J.Fold, J.Acceptable, Refusal.Verify, HasTerminalLine, AllBarred, OnlyTicks;
    var m := RestartBars(c, run, w, r, provided);
    var k := FirstTerminal(w.log, w.snap.pending);
    var v;
    late, v := RefusesUpTo(c, Restarted(run, r, provided), m, w.snap.pending, k);
    J.FoldAccepts(v.log);
  }

  /**
   A REFUSED line does not mean that nothing happened outside. From every reachable state in which a call has
   its effect confirmed but not yet journaled, with an acceptable journal and no older pending intent already
   terminal: after a crash there, any later refusal and one reconciliation, the intent is journaled as REFUSED
   while the external system holds its effect.
   */
  lemma RefusedDespiteEffect(c: Config, run: Run, r: Refusal.RefusalIntent, provided: map<string, string>)
    returns (late: Run)
    requires At(c, run).Some? && At(c, run).value.pc.AppendCommitted? && J.Acceptable(At(c, run).value.log)
    requires var w := At(c, run).value;
             forall i, j | 0 <= i < j < |w.snap.pending| && w.snap.pending[j] == w.pc.it ::
               !HasTerminalLine(w.log, w.snap.pending[i].key)
    requires Refusal.Verify(c.creds, r) && At(c, run).value.snap.epoch < r.body.targetEpoch
    ensures OnlyTicks(late, Restarted(run, r, provided)) && At(c, late).Some?
    ensures var (it, v) := (At(c, run).value.pc.it, At(c, late).value);
            D.Logged(v.log, J.Refused, it.key) && D.Held(c.kind, v.ledger, v.applied, it)
  {
    var w := At(c, run).value;
    J.FoldAccepts(w.log);
    ConfirmedFacts(c, run, w);
    hide At, J.Fold, J.Acceptable, Refusal.Verify, HasTerminalLine, AllBarred, OnlyTicks, D.Held;
    var m := RestartBars(c, run, w, r, provided);
    var k: nat :| k < |w.snap.pending| && w.snap.pending[k] == w.pc.it;
    var v;
    late, v := RefusesUpTo(c, Restarted(run, r, provided), m, w.snap.pending, k);
  }

  lemma ConfirmedFacts(c: Config, run: Run, w: World)
    requires At(c, run) == Some(w) && w.pc.AppendCommitted?
    ensures w.pc.it in w.snap.pending && D.Held(c.kind, w.ledger, w.applied, w.pc.it)
  {
    C.ReachableInv(c, run);
    D.ReachableInv(c, run);
    QueuedIsPending(w);
    hide At, C.Ledgered, C.Queued, C.CallOk, D.Held, D.Accounted, D.Once, D.Announced, D.Loaded, D.Restates;
  }

  // ----- An interrupted publication -----

  /** The authority is about to accept the refusal, and the store does not know it. */
  ghost predicate Publishable(c: Config, w: World, r: Refusal.RefusalIntent) {
    var b := r.body;
    && w.pc.Idle? && Refusal.Verify(c.creds, r) && b.outcomeKey != "" && w.snap.epoch < b.targetEpoch
    && Fencing.Unnamed(w.snap, b.outcomeKey) && b.outcomeKey !in w.ledger.refusals
    && w.ledger.Fence(b.outcomeKey) <= b.targetEpoch
    && Authority.Serve(c.kind, w.ledger, Authority.Refuse(b.outcomeKey, b.targetEpoch, b.id)).1.Ok()
  }

  /** Publish as far as the authority's answer, crash, and publish another refusal locally. */
  function Interrupted(run: Run, r: Refusal.RefusalIntent, other: Refusal.RefusalIntent): Run {
    Do(Do(Do(Do(Do(Do(run, CommitProtected(r)), Tick), Tick), Tick), Crash), CommitRefusal(other))
  }

  /** The three steps up to the authority's acceptance. */
  lemma AcceptedTicks(c: Config, w: World, r: Refusal.RefusalIntent) returns (v: World)
    requires Publishable(c, w, r)
    ensures TickPublish(c, w.(pc := PubFence(r, false))) == w.(pc := PubAsk(r, false))
    ensures TickPublish(c, w.(pc := PubAsk(r, false))) == w.(pc := PubRefuse(r, false))
    ensures TickPublish(c, w.(pc := PubRefuse(r, false))) == v && v.snap == w.snap
    ensures v.ledger ==
      Authority.Serve(c.kind, w.ledger, Authority.Refuse(r.body.outcomeKey, r.body.targetEpoch, r.body.id)).0
  {
    hide Refusal.Verify, TickPublish, Authority.Serve, Fencing.Unnamed;
    TicksPublish(c, w.(pc := PubFence(r, false)));
    TicksPublish(c, w.(pc := PubAsk(r, false)));
    TicksPublish(c, w.(pc := PubRefuse(r, false)));
    v := TickPublish(c, w.(pc := PubRefuse(r, false)));
  }

  lemma PublishesOutside(c: Config, run: Run, w: World, r: Refusal.RefusalIntent) returns (v: World)
    requires At(c, run) == Some(w) && Publishable(c, w, r)
    ensures At(c, Do(Do(Do(Do(run, CommitProtected(r)), Tick), Tick), Tick)) == Some(v) && v.snap == w.snap
    ensures v.ledger ==
      Authority.Serve(c.kind, w.ledger, Authority.Refuse(r.body.outcomeKey, r.body.targetEpoch, r.body.id)).0
  {
    v := AcceptedTicks(c, w, r);
    PublicationBegins(c, run, w, r);
    hide At, Publishable, TickPublish, Authority.Serve;
    AtPublish(c, Do(run, CommitProtected(r)), w.(pc := PubFence(r, false)));
    AtPublish(c, Do(Do(run, CommitProtected(r)), Tick), w.(pc := PubAsk(r, false)));
    AtPublish(c, Do(Do(Do(run, CommitProtected(r)), Tick), Tick), w.(pc := PubRefuse(r, false)));
  }

  lemma PublicationBegins(c: Config, run: Run, w: World, r: Refusal.RefusalIntent)
    requires At(c, run) == Some(w) && Publishable(c, w, r)
    ensures At(c, Do(run, CommitProtected(r))) == Some(w.(pc := PubFence(r, false)))
  {
    Fencing.RecordedIsNamed(w.snap, r);
    NextPublishes(c, w, r);
    hide At, Next, Refusal.Verify, Refusal.HasRefusal, Authority.Serve, Fencing.Unnamed;
    AtDo(c, run, CommitProtected(r), w);
  }

  /**
   How a publication is stranded: crash after the authority has accepted it, then advance the local epoch to the
   fence by any other refusal.
   */
  lemma InterruptionStrands(c: Config, run: Run, r: Refusal.RefusalIntent, other: Refusal.RefusalIntent)
    requires At(c, run).Some? && Publishable(c, At(c, run).value, r)
    requires Refusal.Verify(c.creds, other) && other.body.outcomeKey == ""
    requires r.body.targetEpoch <= other.body.targetEpoch
    ensures At(c, Interrupted(run, r, other)).Some?
    ensures Fencing.Stranded(At(c, Interrupted(run, r, other)).value, r.body.outcomeKey)
  {
    var w := At(c, run).value;
    var v := PublishesOutside(c, run, w, r);
    hide At, Refusal.Verify, Refusal.AppendRefusal;
    var x := CrashThenRefusal(c, Do(Do(Do(Do(run, CommitProtected(r)), Tick), Tick), Tick), v, other);
    Fencing.AppendStaysUnnamed(w.snap, other, r.body.outcomeKey);
  }
}
