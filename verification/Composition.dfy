/**
 The gate and the database it shares with other clients, as one system. `Protocol` serves each request of the
 authority atomically; here the gate's write is a transaction of its own, executed statement by statement among
 those of the other clients, any of which may be under way, aborted or killed at any moment. The gate waits for
 the answer, and may die before it: its transaction then goes on without it. Every run of that system is a run
 of `Protocol`.
 */
module Composition {
  import opened Base
  import opened Protocol
  import opened Steps
  import Pg = PgInterleaving
  import Authority
  import Gate
  import Journal
  import Kernel
  import Refusal

  /** The gate, the database, and the gate's transaction while it waits for an answer. */
  datatype State = State(world: World, db: Pg.Db, own: Option<nat>)

  datatype Act =
    | Local(step: Action)              // any step of the gate but a write to the authority; its crash included
    | Send(id: nat)                    // the gate sends its write
    | Database(statement: Pg.Action)   // any step of any transaction
    | Answer                           // the answer arrives

  /** The gate stands before a write to the authority. */
  predicate Calling(pc: Pc) {
    pc.CallCommit? || pc.PubRefuse?
  }

  function OwnRequest(pc: Pc): Authority.Request
    requires Calling(pc)
  {
    match pc
    case CallCommit(_, it) => Authority.Commit(it.outcomeKey, it.epoch, it.idemKey)
    case _ => Authority.Refuse(pc.refusal.body.outcomeKey, pc.refusal.body.targetEpoch, pc.refusal.body.id)
  }

  /** Where the operation goes on with the answer. */
  function Answered(pc: Pc, ok: bool): Pc
    requires Calling(pc)
  {
    match pc
    case CallCommit(flow, it) => if ok then AppendCommitted(flow, it) else Idle
    case _ => if ok then PubConfirm(pc.refusal, pc.known) else Idle
  }

  ghost predicate Possible(lockKey: string -> int, s: State, act: Act) {
    match act
    case Local(a) => Enabled(s.world, a) && !a.Foreign? && !(a.Tick? && Calling(s.world.pc))
    case Send(id) => Calling(s.world.pc) && s.own.None? && id !in s.db.txns
    case Database(a) => Pg.Enabled(lockKey, s.db, a)
    case Answer =>
      && Calling(s.world.pc) && s.own.Some? && s.own.value in s.db.txns
      && s.db.txns[s.own.value].phase.Finished?
  }

  /** History: the effect that the gate's own transaction has just committed. */
  function Causing(s: State, act: Pg.Action, e: Pg.Db): set<string> {
    if act.Finish? && s.own == Some(act.id) && s.world.pc.CallCommit? && e.ledger != s.db.ledger
    then {s.world.pc.it.key}
    else {}
  }

  ghost function After(c: Config, lockKey: string -> int, s: State, act: Act): State
    requires Possible(lockKey, s, act)
  {
    match act
    case Local(a) => s.(world := Next(c, s.world, a), own := if a.Crash? then None else s.own)
    case Send(id) => s.(db := Pg.Next(lockKey, s.db, Pg.Begin(id, OwnRequest(s.world.pc))), own := Some(id))
    case Database(a) =>
      var e := Pg.Next(lockKey, s.db, a);
      s.(world := s.world.(ledger := e.ledger, caused := s.world.caused + Causing(s, a, e)), db := e)
    case Answer =>
      var response := s.db.txns[s.own.value].phase.response;
      s.(world := s.world.(pc := Answered(s.world.pc, response.Ok())), own := None)
  }

  /** A run of the whole system, latest action last. */
  datatype Shared = Start(world: World) | Then(prior: Shared, act: Act)

  ghost function Reached(c: Config, lockKey: string -> int, run: Shared): Option<State> {
    match run
    case Start(w) => if Initial(c, w) then Some(State(w, Pg.Db(w.ledger, map[], map[], Pg.Empty), None)) else None
    case Then(prior, act) =>
      match Reached(c, lockKey, prior)
      case None => None
      case Some(s) => if Possible(lockKey, s, act) then Some(After(c, lockKey, s, act)) else None
  }

  ghost predicate Continues(late: Shared, early: Shared) {
    late == early || (late.Then? && Continues(late.prior, early))
  }

  // ----- The invariant -----

  /** The gate's transaction carries the request it waits for. */
  predicate Waiting(s: State) {
    s.own.Some? ==>
      && Calling(s.world.pc) && s.own.value in s.db.txns
      && s.db.txns[s.own.value].request == OwnRequest(s.world.pc)
  }

  ghost predicate Inv(lockKey: string -> int, init: Authority.Ledger, s: State) {
    s.world.ledger == s.db.ledger && Waiting(s) && Pg.Inv(lockKey, init, s.db)
  }

  /** Apart from foreign requests and its own writes, no step of the gate changes the authority. */
  lemma LocalLedger(c: Config, w: World, act: Action)
    requires Enabled(w, act) && !act.Foreign? && !(act.Tick? && Calling(w.pc))
    ensures Next(c, w, act).ledger == w.ledger
  {
    if act.Tick? && Working(w.pc) {
      NextOnIntent(c, w);
      hide Next, TickIntent;
      IntentTickFrame(c, w);
    } else if act.Tick? && Publishing(w.pc) {
      TicksPublish(c, w);
      assert Next(c, w, Tick) == TickPublish(c, w) by { hide TickPublish; }
      hide Next, TickPublish, Authority.Serve;
    } else {
      hide TickIntent, TickPublish, Kernel.Issue, Gate.Check, Refusal.Commit, BeginPublish, Journal.Fold;
    }
  }

  /** While the gate waits, the only steps of its own are the adapter's drift and its death. */
  lemma WaitingSteps(c: Config, w: World, act: Action)
    requires Enabled(w, act) && !act.Foreign? && Calling(w.pc) && !act.Tick?
    ensures act.Drift? || act.Crash?
    ensures act.Drift? ==> Next(c, w, act) == w.(statuses := w.statuses[act.key := act.status])
    ensures act.Crash? ==> Next(c, w, act) == w.(pc := Idle)
  {}

  /** What one step of the database does to its transactions. */
  lemma DatabaseStep(lockKey: string -> int, d: Pg.Db, act: Pg.Action, id: nat)
    requires Pg.Enabled(lockKey, d, act) && id in d.txns
    ensures var e := Pg.Next(lockKey, d, act);
            && id in e.txns && e.txns[id].request == d.txns[id].request
            && (act.id != id ==> e.txns[id] == d.txns[id])
            && (d.txns[id].phase.Finished? ==> e.txns[id] == d.txns[id])
            && (e.txns[id].phase.Finished? && !d.txns[id].phase.Finished? ==>
                  && act == Pg.Finish(id) && d.txns[id].phase.Ready?
                  && e.txns[id].phase.response == d.txns[id].phase.response)
    ensures !act.Finish? ==> Pg.Next(lockKey, d, act).ledger == d.ledger
  {
    hide Pg.Settled, Pg.Contended, Pg.Release;
    if act.Execute? {
      var t := d.txns[act.id];
      Pg.StatementShape(d.ledger, t.request, t.phase.step, t.phase.buffer);
    }
    hide Pg.Statement;
  }

  /** A COMMIT is the atomic request, unless it is a rejection settled earlier, which writes nothing. */
  lemma FinishServes(lockKey: string -> int, init: Authority.Ledger, d: Pg.Db, id: nat)
    requires Pg.Inv(lockKey, init, d) && Pg.Enabled(lockKey, d, Pg.Finish(id))
    ensures var (t, e) := (d.txns[id], Pg.Next(lockKey, d, Pg.Finish(id)));
            if t.phase.response.Ok() then
              Authority.Serve(Authority.Postgres, d.ledger, t.request) == (e.ledger, t.phase.response)
            else e.ledger == d.ledger
  {
    assert Pg.TxnOk(lockKey, d, id);
    hide Pg.KeysApart, Authority.Serve, Pg.Knows;
  }

  // ----- The simulation -----

  /** The gate's transaction has committed with success, and the answer is on its way. */
  predicate Through(s: State) {
    && s.own.Some? && s.own.value in s.db.txns && Calling(s.world.pc)
    && s.db.txns[s.own.value].phase.Finished? && s.db.txns[s.own.value].phase.response.Ok()
  }

  /** How `Protocol` sees the system: the gate goes on at the moment its transaction commits. */
  function Seen(s: State): World {
    if Through(s) then s.world.(pc := Answered(s.world.pc, true)) else s.world
  }

  /** The gate's own step in `Protocol`, when the authority accepts. */
  lemma OwnStep(c: Config, p: Run, w: World, ledger: Authority.Ledger)
    requires At(c, p) == Some(w) && Calling(w.pc)
    requires var (l, r) := Authority.Serve(c.kind, w.ledger, OwnRequest(w.pc)); l == ledger && r.Ok()
    ensures At(c, Do(p, Tick)) == Some(w.(
      ledger := ledger,
      caused := w.caused + (if w.pc.CallCommit? && ledger != w.ledger then {w.pc.it.key} else {}),
      pc := Answered(w.pc, true)))
  {
    if w.pc.CallCommit? {
      CommitsOutside(c, w);
      hide At, TickIntent, CommitOutside, Authority.Serve;
      AtTick(c, p, w);
    } else {
      TicksPublish(c, w);
      hide At, TickPublish, Authority.Serve;
      AtPublish(c, p, w);
      assert w.caused + {} == w.caused;
    }
  }

  lemma CommitsOutside(c: Config, w: World)
    requires w.pc.CallCommit?
    ensures var (l, r) := Authority.Serve(c.kind, w.ledger, OwnRequest(w.pc));
            TickIntent(c, w) == w.(
              ledger := l,
              caused := w.caused + (if l != w.ledger then {w.pc.it.key} else {}),
              pc := Answered(w.pc, r.Ok()))
  {
    TicksProtected(c, w);
    hide TickIntent, Authority.Serve;
  }

  lemma ForeignAlways(c: Config, p: Run, w: World, q: Authority.Request)
    requires At(c, p) == Some(w)
    ensures At(c, Do(p, Foreign(q))) == Some(w.(ledger := Authority.Serve(c.kind, w.ledger, q).0))
  {
    NextOutside(c, w, q);
    hide At, Next, Authority.Serve;
    AtDo(c, p, Foreign(q), w);
  }

  lemma CrashAlways(c: Config, p: Run, w: World)
    requires At(c, p) == Some(w) && !w.pc.DropCommitted? && !w.pc.DropRefused?
    ensures At(c, Do(p, Crash)) == Some(w.(pc := Idle))
  {
    NextCrashes(c, w);
    hide At, Next;
    AtDo(c, p, Crash, w);
  }

  lemma {:induction false} LocalFollows(c: Config, lockKey: string -> int, init: Authority.Ledger, s: State,
                                        a: Action, p: Run)
    returns (q: Run)
    requires Inv(lockKey, init, s) && Possible(lockKey, s, Local(a)) && At(c, p) == Some(Seen(s))
    ensures Extends(q, p) && At(c, q) == Some(Seen(After(c, lockKey, s, Local(a))))
    ensures Inv(lockKey, init, After(c, lockKey, s, Local(a)))
  {
    LocalLedger(c, s.world, a);
    hide At, Next, Pg.Inv, Enabled;
    q := Do(p, a);
    if s.own.None? {
      AtDo(c, p, a, s.world);
    } else {
      WaitingSteps(c, s.world, a);
      if a.Drift? {
        NextDrift(c, Seen(s), a.key, a.status);
        AtDo(c, p, a, Seen(s));
      } else {
        CrashAlways(c, p, Seen(s));
      }
    }
  }

  lemma SendFollows(lockKey: string -> int, init: Authority.Ledger, c: Config, s: State, id: nat)
    requires Inv(lockKey, init, s) && Possible(lockKey, s, Send(id))
    ensures var t := After(c, lockKey, s, Send(id)); Inv(lockKey, init, t) && Seen(t) == Seen(s)
  {
    Pg.BeginKeeps(lockKey, init, s.db, id, OwnRequest(s.world.pc));
    hide Pg.Inv;
  }

  lemma {:induction false} AnswerFollows(c: Config, lockKey: string -> int, init: Authority.Ledger, s: State,
                                         p: Run)
    returns (q: Run)
    requires Inv(lockKey, init, s) && Possible(lockKey, s, Answer) && At(c, p) == Some(Seen(s))
    ensures Extends(q, p) && At(c, q) == Some(Seen(After(c, lockKey, s, Answer)))
    ensures Inv(lockKey, init, After(c, lockKey, s, Answer))
  {
    hide At, Pg.Inv;
    if Through(s) {
      q := p;
    } else {
      q := Do(p, Crash);
      CrashAlways(c, p, s.world);
    }
  }

  /** The database moves on: the gate's own commit, another client's, or nothing that shows. */
  lemma {:induction false} DatabaseFollows(c: Config, lockKey: string -> int, init: Authority.Ledger, s: State,
                                           a: Pg.Action, p: Run)
    returns (q: Run)
    requires c.kind.Postgres? && Inv(lockKey, init, s) && Possible(lockKey, s, Database(a)) && At(c, p) == Some(Seen(s))
    ensures Extends(q, p) && At(c, q) == Some(Seen(After(c, lockKey, s, Database(a))))
    ensures Inv(lockKey, init, After(c, lockKey, s, Database(a)))
  {
    Pg.StepKeeps(lockKey, init, s.db, a);
    if a.Finish? {
      FinishServes(lockKey, init, s.db, a.id);
    }
    hide Pg.Inv, At, Authority.Serve, OwnRequest, Answered;
    var e := Pg.Next(lockKey, s.db, a);
    if s.own.Some? {
      DatabaseStep(lockKey, s.db, a, s.own.value);
    }
    LedgerMoves(lockKey, s.db, a);
    assert s.world.caused + {} == s.world.caused;
    hide Pg.Next, Pg.Enabled;
    if a.Finish? && s.own == Some(a.id) && s.db.txns[a.id].phase.response.Ok() {
      q := Do(p, Tick);
      OwnStep(c, p, s.world, e.ledger);
    } else if e.ledger == s.db.ledger {
      q := p;
    } else {
      q := Do(p, Foreign(s.db.txns[a.id].request));
      ForeignAlways(c, p, Seen(s), s.db.txns[a.id].request);
    }
  }

  lemma LedgerMoves(lockKey: string -> int, d: Pg.Db, act: Pg.Action)
    requires Pg.Enabled(lockKey, d, act)
    ensures act.Finish? ==> act.id in d.txns && d.txns[act.id].phase.Ready?
    ensures Pg.Next(lockKey, d, act).ledger != d.ledger ==> act.Finish?
  {
    hide Pg.Statement, Pg.Settled, Pg.Contended, Pg.Release;
  }

  /** One step of the whole system is none or one of `Protocol`. */
  lemma {:induction false} StepFollows(c: Config, lockKey: string -> int, init: Authority.Ledger, s: State,
                                       act: Act, p: Run)
    returns (q: Run)
    requires c.kind.Postgres? && Inv(lockKey, init, s) && Possible(lockKey, s, act) && At(c, p) == Some(Seen(s))
    ensures Extends(q, p) && At(c, q) == Some(Seen(After(c, lockKey, s, act)))
    ensures Inv(lockKey, init, After(c, lockKey, s, act))
  {
    hide Inv, Seen, At, After, Possible;
    match act
    case Local(a) => q := LocalFollows(c, lockKey, init, s, a, p);
    case Send(id) =>
      SendFollows(lockKey, init, c, s, id);
      q := p;
    case Database(a) => q := DatabaseFollows(c, lockKey, init, s, a, p);
    case Answer => q := AnswerFollows(c, lockKey, init, s, p);
  }

  function First(run: Shared): World {
    if run.Start? then run.world else First(run.prior)
  }

  lemma {:induction false} ReachedFollows(c: Config, lockKey: string -> int, run: Shared) returns (p: Run)
    requires c.kind.Postgres? && Reached(c, lockKey, run).Some?
    ensures var s := Reached(c, lockKey, run).value;
            Inv(lockKey, First(run).ledger, s) && At(c, p) == Some(Seen(s))
  {
    if run.Start? {
      p := Boot(run.world);
      Pg.InitialInv(lockKey, run.world.ledger);
      hide Pg.Inv, Initial;
    } else {
      hide Inv, Seen, At, After, Possible;
      var q := ReachedFollows(c, lockKey, run.prior);
      p := StepFollows(c, lockKey, First(run).ledger, Reached(c, lockKey, run.prior).value, run.act, q);
    }
  }

  /**
   Every run of the gate over the interleaved database is a run of `Protocol`, from any state on: with whatever
   transactions are under way, the gate's own committed, rejected, aborted, killed or left behind by its death.
   The snapshot, the journal and the ledger are the same, and so is the control point, except that `Protocol`
   goes on as soon as the gate's transaction has committed with success, before the answer arrives.
   */
  lemma {:induction false} SharedIsProtocol(c: Config, lockKey: string -> int, early: Shared, late: Shared, p: Run)
    returns (q: Run)
    requires c.kind.Postgres? && Continues(late, early)
    requires Reached(c, lockKey, early).Some? && Reached(c, lockKey, late).Some?
    requires At(c, p) == Some(Seen(Reached(c, lockKey, early).value))
    ensures Extends(q, p) && At(c, q) == Some(Seen(Reached(c, lockKey, late).value))
  {
    if late == early {
      q := p;
    } else {
      hide Inv, Seen, At, After, Possible;
      var m := SharedIsProtocol(c, lockKey, early, late.prior, p);
      var s := Reached(c, lockKey, late.prior).value;
      var _ := ReachedFollows(c, lockKey, late.prior);
      q := StepFollows(c, lockKey, First(late.prior).ledger, s, late.act, m);
      ExtendsTransitive(q, m, p);
    }
  }

  /** In particular every state reached from a fresh deployment is one that `Protocol` reaches. */
  lemma {:induction false} SharedIsReachable(c: Config, lockKey: string -> int, run: Shared) returns (p: Run)
    requires c.kind.Postgres? && Reached(c, lockKey, run).Some?
    ensures var s := Reached(c, lockKey, run).value;
            && At(c, p) == Some(Seen(s))
            && Seen(s).snap == s.world.snap && Seen(s).log == s.world.log && Seen(s).ledger == s.db.ledger
            && (s.own.None? ==> Seen(s) == s.world)
  {
    hide At, Pg.Inv;
    p := ReachedFollows(c, lockKey, run);
  }
}
