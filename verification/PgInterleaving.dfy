/**
 postgres_authority.py with its transactions interleaved statement by statement.

 Every call is one transaction: it takes the advisory lock of its outcome (`lockKey` may map two outcomes
 to one lock), runs its SELECT/INSERT statements one at a time against the rows committed so far, buffers
 its writes, and commits them together. A client may be killed at any moment before its COMMIT; an INSERT
 that meets a committed row with its key aborts, and one that meets an uncommitted row with its key waits.

 `log` is a history variable: the atomic calls that explain the run so far. A call enters it when its
 transaction commits, or, for the two rejections that depend on another outcome's rows, when the
 idempotency-key SELECT is executed.
 */
module PgInterleaving {
  import opened Base
  import opened Authority

  /** The uncommitted writes of one transaction; all of them concern the outcome of its own request. */
  datatype Buffer =
    | Clean
    | FenceRow(fence: int)
    | FenceAndRefusal(fence: int, refused: Refused)
    | EffectRow(idem: string, epoch: int)

  function Applied(a: Ledger, outcome: string, b: Buffer): Ledger {
    match b
    case Clean => a
    case FenceRow(f) => a.(fences := a.fences[outcome := f])
    case FenceAndRefusal(f, r) => a.(fences := a.fences[outcome := f], refusals := a.refusals[outcome := r])
    case EffectRow(k, e) => a.(effects := a.effects[k := Effect(outcome, e)])
  }

  datatype Phase =
    | Waiting                                    // for the advisory lock
    | Running(step: nat, buffer: Buffer)         // holds the lock; `step` statements done
    | Ready(response: Response, buffer: Buffer)  // about to COMMIT
    | Finished(response: Response)
    | Aborted
  {
    predicate Holding() { Running? || Ready? }
  }

  datatype Txn = Txn(request: Request, phase: Phase)

  datatype Entry = Entry(id: nat, request: Request, response: Response)

  datatype Log = Empty | Logged(prior: Log, entry: Entry)
  {
    predicate Has(id: nat) {
      Logged? && (entry.id == id || prior.Has(id))
    }

    function Of(id: nat): Entry
      requires Has(id)
    {
      if entry.id == id then entry else prior.Of(id)
    }

    predicate Distinct() {
      Logged? ==> !prior.Has(entry.id) && prior.Distinct()
    }

    function Without(id: nat): Log {
      if Empty? then Empty
      else if entry.id == id then prior.Without(id)
      else Logged(prior.Without(id), entry)
    }

    /** The call `a` is logged before the call `b`. */
    predicate Precedes(a: nat, b: nat) {
      Logged? && (if entry.id == b then prior.Has(a) else prior.Precedes(a, b))
    }

    /** Run the logged calls atomically, one at a time. */
    function Replay(init: Ledger): Ledger {
      if Empty? then init else Serve(Postgres, prior.Replay(init), entry.request).0
    }

    /** Each logged response is the one its atomic call gives. */
    predicate Honest(init: Ledger) {
      Logged? ==>
        && Serve(Postgres, prior.Replay(init), entry.request).1 == entry.response
        && prior.Honest(init)
    }
  }

  datatype Db = Db(ledger: Ledger, txns: map<nat, Txn>, holder: map<int, nat>, log: Log)
  {
    function Note(id: nat, response: Response): Log
      requires id in txns
    {
      Logged(log, Entry(id, txns[id].request, response))
    }

    function Move(id: nat, phase: Phase): Db
      requires id in txns
    {
      this.(txns := txns[id := txns[id].(phase := phase)])
    }
  }

  datatype Action =
    | Begin(id: nat, request: Request)
    | Acquire(id: nat)
    | Execute(id: nat)     // the next SQL statement
    | Finish(id: nat)      // COMMIT
    | Kill(id: nat)        // the client dies or its connection is lost

  /** Another transaction has an uncommitted effect row with this key or outcome. */
  predicate Contended(d: Db, id: nat, idem: string, outcome: string) {
    exists j | j in d.txns ::
      && j != id
      && d.txns[j].phase.Holding()
      && d.txns[j].phase.buffer.EffectRow?
      && (d.txns[j].phase.buffer.idem == idem || d.txns[j].request.outcome == outcome)
  }

  /** The statement a running transaction executes next, for `fence`. */
  function FenceStatement(a: Ledger, o: string, e: int, step: nat): Phase {
    if step == 0 then (if e < a.Fence(o) then Ready(FenceRollback, Clean) else Running(1, Clean))
    else if step == 1 then (if o in a.refusals then Ready(TerminalRefusal, Clean) else Running(2, Clean))
    else Ready(Done, FenceRow(e))
  }

  function RefuseStatement(a: Ledger, o: string, e: int, id: string, step: nat, b: Buffer): Phase {
    if step == 0 then
      if o in a.refusals then
        Ready(if a.refusals[o].epoch == e && a.refusals[o].id == id then DoneOnce(true) else OtherRefusal, Clean)
      else Running(1, Clean)
    else if step == 1 then (if e < a.Fence(o) then Ready(FenceRollback, Clean) else Running(2, Clean))
    else if step == 2 then (if a.Committed(o) then Ready(AlreadyCommitted(true), Clean) else Running(3, Clean))
    else if step == 3 then Running(4, FenceRow(if a.Fence(o) > e then a.Fence(o) else e))
    else if o in a.refusals || !b.FenceRow? then Aborted
    else Ready(DoneOnce(false), FenceAndRefusal(b.fence, Refused(e, id)))
  }

  function CommitStatement(a: Ledger, o: string, e: int, k: string, step: nat): Phase {
    if step == 0 then (if o in a.refusals then Ready(TerminalRefusal, Clean) else Running(1, Clean))
    else if step == 1 then (if a.Fence(o) != e then Ready(StaleFence, Clean) else Running(2, Clean))
    else if step == 2 then
      if k in a.effects then Ready(if a.effects[k].outcome == o then DoneOnce(true) else KeyReuse, Clean)
      else Running(3, Clean)
    else if step == 3 then
      (if a.Committed(o) then Ready(AlreadyCommitted(false), Clean) else Running(4, Clean))
    else if k in a.effects || a.Committed(o) then Aborted
    else Ready(DoneOnce(false), EffectRow(k, e))
  }

  function Statement(a: Ledger, q: Request, step: nat, b: Buffer): Phase {
    match q
    case FenceAt(o, e) => FenceStatement(a, o, e, step)
    case Refuse(o, e, id) => RefuseStatement(a, o, e, id, step, b)
    case Commit(o, e, k) => CommitStatement(a, o, e, k, step)
  }

  /** The rejection that the idempotency-key SELECT settles for good, if any. */
  function Settled(a: Ledger, q: Request, step: nat): Option<Response> {
    if !q.Commit? || step != 2 then None
    else if q.idem in a.effects then (if a.effects[q.idem].outcome == q.outcome then None else Some(KeyReuse))
    else if a.Committed(q.outcome) then Some(AlreadyCommitted(false))
    else None
  }

  predicate Enabled(lockKey: string -> int, d: Db, act: Action) {
    match act
    case Begin(id, _) => id !in d.txns
    case Acquire(id) => id in d.txns && d.txns[id].phase.Waiting? && lockKey(d.txns[id].request.outcome) !in d.holder
    case Execute(id) =>
      && id in d.txns
      && d.txns[id].phase.Running?
      && var q := d.txns[id].request;
         q.Commit? && d.txns[id].phase.step >= 4 ==> !Contended(d, id, q.idem, q.outcome)
    case Finish(id) => id in d.txns && d.txns[id].phase.Ready?
    case Kill(id) => id in d.txns && (d.txns[id].phase.Waiting? || d.txns[id].phase.Holding())
  }

  function Release(holder: map<int, nat>, id: nat): map<int, nat> {
    holder - (set h | h in holder && holder[h] == id)
  }

  function Abort(d: Db, id: nat): Db
    requires id in d.txns
  {
    d.Move(id, Aborted).(holder := Release(d.holder, id), log := d.log.Without(id))
  }

  function Next(lockKey: string -> int, d: Db, act: Action): Db
    requires Enabled(lockKey, d, act)
  {
    match act
    case Begin(id, q) => d.(txns := d.txns[id := Txn(q, Waiting)])
    case Acquire(id) =>
      d.Move(id, Running(0, Clean)).(holder := d.holder[lockKey(d.txns[id].request.outcome) := id])
    case Execute(id) =>
      var t := d.txns[id];
      var phase := Statement(d.ledger, t.request, t.phase.step, t.phase.buffer);
      var settled := Settled(d.ledger, t.request, t.phase.step);
      if phase.Aborted? then Abort(d, id)
      else if settled.Some? then d.Move(id, phase).(log := d.Note(id, settled.value))
      else d.Move(id, phase)
    case Finish(id) =>
      var t := d.txns[id];
      d.Move(id, Finished(t.phase.response)).(
        ledger := Applied(d.ledger, t.request.outcome, t.phase.buffer),
        holder := Release(d.holder, id),
        log := if d.log.Has(id) then d.log else d.Note(id, t.phase.response))
    case Kill(id) => Abort(d, id)
  }

  // ----- The rows a lock protects -----

  /** The two ledgers agree on every row about the outcome `o`. */
  ghost predicate SameRows(a: Ledger, b: Ledger, o: string) {
    && Get(a.refusals, o) == Get(b.refusals, o)
    && a.Fence(o) == b.Fence(o)
    && a.Committed(o) == b.Committed(o)
  }

  lemma OtherOutcomeUntouched(a: Ledger, o: string, b: Buffer, other: string)
    requires o != other && (b.EffectRow? ==> b.idem !in a.effects)
    ensures SameRows(a, Applied(a, o, b), other)
  {
    var c := Applied(a, o, b);
    if a.Committed(other) {
      var k :| k in a.effects && a.effects[k].outcome == other;
      assert k in c.effects && c.effects[k].outcome == other;
    }
    if c.Committed(other) {
      var k :| k in c.effects && c.effects[k].outcome == other;
      assert k in a.effects && a.effects[k].outcome == other;
    }
  }

  // ----- The invariant -----

  /** What the statements already executed have established, as long as the lock is held. */
  ghost predicate Knows(a: Ledger, q: Request, step: nat, b: Buffer) {
    match q
    case FenceAt(o, e) =>
      b.Clean? && (step >= 1 ==> a.Fence(o) <= e) && (step >= 2 ==> o !in a.refusals)
    case Refuse(o, e, _) =>
      && (step >= 1 ==> o !in a.refusals)
      && (step >= 2 ==> a.Fence(o) <= e)
      && (step >= 3 ==> !a.Committed(o))
      && (if step >= 4 then b == FenceRow(e) else b.Clean?)
    case Commit(o, e, _) =>
      && b.Clean?
      && (step >= 1 ==> o !in a.refusals)
      && (step >= 2 ==> a.Fence(o) == e)
      && (step >= 4 ==> !a.Committed(o))
  }

  /** The rows a request writes are determined by its response. */
  ghost function Writes(q: Request, r: Response): Buffer {
    match q
    case FenceAt(_, e) => if r.Done? then FenceRow(e) else Clean
    case Refuse(_, e, id) => if r == DoneOnce(false) then FenceAndRefusal(e, Refused(e, id)) else Clean
    case Commit(_, e, k) => if r == DoneOnce(false) then EffectRow(k, e) else Clean
  }

  /** Committing now would be exactly the atomic call. */
  ghost predicate Matches(a: Ledger, q: Request, response: Response, b: Buffer) {
    && b == Writes(q, response)
    && Serve(Postgres, a, q) == (Applied(a, q.outcome, b), response)
  }

  /** A rejection settled by the idempotency-key SELECT of `q`. */
  ghost predicate Rejection(q: Request, r: Response) {
    q.Commit? && (r == KeyReuse || r == AlreadyCommitted(false))
  }

  ghost predicate TxnOk(lockKey: string -> int, d: Db, id: nat)
    requires id in d.txns
  {
    var t := d.txns[id];
    && (t.phase.Holding() ==>
          lockKey(t.request.outcome) in d.holder && d.holder[lockKey(t.request.outcome)] == id)
    && (d.log.Has(id) ==> d.log.Of(id).request == t.request)
    && (d.log.Has(id) && !t.phase.Finished? ==> Rejection(t.request, d.log.Of(id).response))
    && match t.phase
       case Waiting => !d.log.Has(id)
       case Running(step, b) =>
         && Knows(d.ledger, t.request, step, b)
         && (d.log.Has(id) <==> t.request.Commit? && step == 3 && d.ledger.Committed(t.request.outcome))
         && (d.log.Has(id) ==> d.log.Of(id).response == AlreadyCommitted(false))
       case Ready(r, b) =>
         if d.log.Has(id) then b.Clean? && d.log.Of(id).response == r
         else Matches(d.ledger, t.request, r, b) && !Rejection(t.request, r)
       case Finished(r) => d.log.Has(id) && d.log.Of(id).response == r
       case Aborted => !d.log.Has(id)
  }

  /** No two transactions hold an uncommitted effect row with the same key. */
  ghost predicate KeysApart(d: Db) {
    forall i, j | i in d.txns && j in d.txns && i != j && d.txns[i].phase.Ready? && d.txns[j].phase.Ready? ::
      d.txns[i].phase.buffer.EffectRow? && d.txns[j].phase.buffer.EffectRow? ==>
        d.txns[i].phase.buffer.idem != d.txns[j].phase.buffer.idem
  }

  ghost predicate Inv(lockKey: string -> int, init: Ledger, d: Db) {
    && d.log.Replay(init) == d.ledger
    && d.log.Honest(init)
    && d.log.Distinct()
    && (forall id | d.log.Has(id) :: id in d.txns)
    && (forall id | id in d.txns :: TxnOk(lockKey, d, id))
    && KeysApart(d)
  }

  // ----- Log lemmas -----

  lemma {:induction false} WithoutFacts(log: Log, id: nat, other: nat)
    requires log.Distinct()
    ensures log.Without(id).Distinct() && !log.Without(id).Has(id)
    ensures other != id ==> (log.Without(id).Has(other) <==> log.Has(other))
    ensures other != id && log.Has(other) ==> log.Without(id).Of(other) == log.Of(other)
  {
    if log.Logged? {
      WithoutFacts(log.prior, id, other);
      if log.entry.id != id {
        WithoutFacts(log.prior, id, log.entry.id);
      }
    }
  }

  lemma {:induction false} WithoutNothing(log: Log, id: nat)
    requires !log.Has(id)
    ensures log.Without(id) == log
  {
    if log.Logged? {
      WithoutNothing(log.prior, id);
    }
  }

  /** A rejected call changes nothing, so dropping it from the log leaves an explanation of the same state. */
  lemma {:induction false} WithoutReplays(log: Log, init: Ledger, id: nat)
    requires log.Distinct() && log.Honest(init)
    requires log.Has(id) ==> Rejection(log.Of(id).request, log.Of(id).response)
    ensures log.Without(id).Replay(init) == log.Replay(init) && log.Without(id).Honest(init)
  {
    if log.Logged? {
      if log.entry.id == id {
        WithoutNothing(log.prior, id);
      } else {
        WithoutReplays(log.prior, init, id);
      }
    }
  }

  // ----- Preservation -----

  lemma InitialInv(lockKey: string -> int, init: Ledger)
    ensures Inv(lockKey, init, Db(init, map[], map[], Empty))
  {}

  lemma BeginKeeps(lockKey: string -> int, init: Ledger, d: Db, id: nat, q: Request)
    requires Inv(lockKey, init, d) && Enabled(lockKey, d, Begin(id, q))
    ensures Inv(lockKey, init, Next(lockKey, d, Begin(id, q)))
  {
    var e := Next(lockKey, d, Begin(id, q));
    forall j | j in e.txns ensures TxnOk(lockKey, e, j) {
      if j != id {
        assert TxnOk(lockKey, d, j);
      }
    }
  }

  lemma AcquireKeeps(lockKey: string -> int, init: Ledger, d: Db, id: nat)
    requires Inv(lockKey, init, d) && Enabled(lockKey, d, Acquire(id))
    ensures Inv(lockKey, init, Next(lockKey, d, Acquire(id)))
  {
    var e := Next(lockKey, d, Acquire(id));
    assert TxnOk(lockKey, d, id);
    forall j | j in e.txns ensures TxnOk(lockKey, e, j) {
      assert TxnOk(lockKey, d, j);
    }
  }

  lemma AbortKeeps(lockKey: string -> int, init: Ledger, d: Db, id: nat)
    requires Inv(lockKey, init, d) && id in d.txns && !d.txns[id].phase.Finished?
    ensures Inv(lockKey, init, Abort(d, id))
  {
    hide Knows, Matches, Rejection;
    var e := Abort(d, id);
    assert TxnOk(lockKey, d, id);
    WithoutReplays(d.log, init, id);
    WithoutFacts(d.log, id, id);
    forall j | j in e.txns ensures TxnOk(lockKey, e, j) {
      assert TxnOk(lockKey, d, j);
      WithoutFacts(d.log, id, j);
    }
    forall j | e.log.Has(j) ensures j in e.txns {
      WithoutFacts(d.log, id, j);
    }
  }

  /** One statement keeps what the transaction knows and, when it returns, matches the atomic call. */
  lemma StatementKnows(a: Ledger, q: Request, step: nat, b: Buffer)
    requires Knows(a, q, step, b)
    ensures match Statement(a, q, step, b)
            case Running(s, c) =>
              Knows(a, q, s, c) && (q.Commit? && s == 3 ==> step == 2) && (q.Commit? && step == 3 ==> !a.Committed(q.outcome))
            case Ready(r, c) =>
              && (Settled(a, q, step).Some? ==> c.Clean? && r == Settled(a, q, step).value)
              && (Settled(a, q, step).None? && !(q.Commit? && step == 3) ==> Matches(a, q, r, c) && !Rejection(q, r))
              && (q.Commit? && step == 3 ==> a.Committed(q.outcome) && c.Clean? && r == AlreadyCommitted(false))
            case _ => true
  {}

  lemma SettledMatches(a: Ledger, q: Request, step: nat, b: Buffer)
    requires Knows(a, q, step, b) && Settled(a, q, step).Some?
    ensures Rejection(q, Settled(a, q, step).value)
    ensures Serve(Postgres, a, q) == (a, Settled(a, q, step).value)
  {}

  lemma MoveKeeps(lockKey: string -> int, init: Ledger, d: Db, id: nat, e: Db)
    requires Inv(lockKey, init, d) && id in d.txns && d.txns[id].phase.Running? && !d.log.Has(id)
    requires id in e.txns && e.txns == d.txns[id := e.txns[id]] && e.ledger == d.ledger && e.holder == d.holder
    requires || e.log == d.log
             || (e.log.Logged? && e.log.prior == d.log && e.log.entry.id == id
                 && Serve(Postgres, d.ledger, e.log.entry.request) == (d.ledger, e.log.entry.response))
    requires TxnOk(lockKey, e, id)
    requires e.txns[id].phase.Ready? && e.txns[id].phase.buffer.EffectRow? ==>
               !Contended(d, id, e.txns[id].phase.buffer.idem, d.txns[id].request.outcome)
    ensures Inv(lockKey, init, e)
  {
    hide Knows, Matches, Rejection;
    forall j | j in e.txns ensures TxnOk(lockKey, e, j) {
      if j != id {
        assert TxnOk(lockKey, d, j);
      }
    }
  }

  lemma ExecuteKeeps(lockKey: string -> int, init: Ledger, d: Db, id: nat)
    requires Inv(lockKey, init, d) && Enabled(lockKey, d, Execute(id))
    ensures Inv(lockKey, init, Next(lockKey, d, Execute(id)))
  {
    hide Knows, Matches, Statement, Settled;
    var t := d.txns[id];
    var q, step, b := t.request, t.phase.step, t.phase.buffer;
    var e := Next(lockKey, d, Execute(id));
    assert TxnOk(lockKey, d, id);
    StatementShape(d.ledger, q, step, b);
    if Statement(d.ledger, q, step, b).Aborted? {
      AbortKeeps(lockKey, init, d, id);
    } else {
      StatementKnows(d.ledger, q, step, b);
      if Settled(d.ledger, q, step).Some? {
        SettledMatches(d.ledger, q, step, b);
      }
      if d.log.Has(id) {
        ReturnKeeps(lockKey, init, d, id, e);
      } else {
        MoveKeeps(lockKey, init, d, id, e);
      }
    }
  }

  /** The outcome SELECT finding what the idempotency-key SELECT already settled. */
  lemma ReturnKeeps(lockKey: string -> int, init: Ledger, d: Db, id: nat, e: Db)
    requires Inv(lockKey, init, d) && id in d.txns && d.txns[id].phase.Running? && d.log.Has(id)
    requires e == d.Move(id, Ready(AlreadyCommitted(false), Clean))
    ensures Inv(lockKey, init, e)
  {
    hide Knows, Matches, Rejection;
    assert TxnOk(lockKey, d, id);
    forall j | j in e.txns ensures TxnOk(lockKey, e, j) {
      assert TxnOk(lockKey, d, j);
    }
  }

  lemma StatementShape(a: Ledger, q: Request, step: nat, b: Buffer)
    ensures var p := Statement(a, q, step, b);
            && (p.Running? || p.Ready? || p.Aborted?)
            && (q.Commit? && p.Running? ==> p.step == step + 1)
            && (p.Ready? && p.buffer.EffectRow? ==> q.Commit? && step >= 4 && p.buffer.idem == q.idem)
    ensures Settled(a, q, step).Some? ==> q.Commit? && step == 2
    ensures q.Commit? && step == 2 && Settled(a, q, step).None? && Statement(a, q, step, b).Running? ==>
              !a.Committed(q.outcome)
    ensures q.Commit? && step == 2 && Settled(a, q, step).Some? && Statement(a, q, step, b).Running? ==>
              a.Committed(q.outcome) && Settled(a, q, step) == Some(AlreadyCommitted(false))
  {}

  lemma KnowsLocal(a: Ledger, b: Ledger, q: Request, step: nat, buffer: Buffer)
    requires SameRows(a, b, q.outcome) && Knows(a, q, step, buffer)
    ensures Knows(b, q, step, buffer)
  {
    assert q.outcome in a.refusals <==> q.outcome in b.refusals;
  }

  lemma MatchesLocal(a: Ledger, b: Ledger, q: Request, r: Response, buffer: Buffer)
    requires SameRows(a, b, q.outcome) && Matches(a, q, r, buffer) && !Rejection(q, r)
    requires forall k | k in a.effects :: k in b.effects && b.effects[k] == a.effects[k]
    requires forall k | k in b.effects && k !in a.effects :: buffer.EffectRow? ==> k != buffer.idem
    ensures Matches(b, q, r, buffer)
  {
    assert q.outcome in a.refusals <==> q.outcome in b.refusals;
  }

  lemma NewKeyIsNew(a: Ledger, q: Request, r: Response, b: Buffer)
    requires Matches(a, q, r, b)
    ensures b.EffectRow? ==> b.idem !in a.effects
  {}

  lemma AppliedKeepsEffects(a: Ledger, o: string, b: Buffer)
    requires b.EffectRow? ==> b.idem !in a.effects
    ensures forall k | k in a.effects :: k in Applied(a, o, b).effects && Applied(a, o, b).effects[k] == a.effects[k]
    ensures forall k | k in Applied(a, o, b).effects && k !in a.effects :: b.EffectRow? && k == b.idem
  {}

  lemma BystanderOk(lockKey: string -> int, d: Db, e: Db, id: nat, j: nat)
    requires id in d.txns && j in d.txns && j != id && TxnOk(lockKey, d, id) && TxnOk(lockKey, d, j) && KeysApart(d)
    requires d.txns[id].phase.Ready? && e == Next(lockKey, d, Finish(id))
    requires d.txns[id].phase.buffer.EffectRow? ==> d.txns[id].phase.buffer.idem !in d.ledger.effects
    ensures TxnOk(lockKey, e, j)
  {
    hide Knows, Matches, Rejection, Applied;
    var t, u := d.txns[id], d.txns[j];
    if u.phase.Holding() {
      assert u.request.outcome != t.request.outcome;
      OtherOutcomeUntouched(d.ledger, t.request.outcome, t.phase.buffer, u.request.outcome);
      AppliedKeepsEffects(d.ledger, t.request.outcome, t.phase.buffer);
      if u.phase.Running? {
        KnowsLocal(d.ledger, e.ledger, u.request, u.phase.step, u.phase.buffer);
      } else if !d.log.Has(j) {
        MatchesLocal(d.ledger, e.ledger, u.request, u.phase.response, u.phase.buffer);
      }
    }
  }

  lemma FinishKeeps(lockKey: string -> int, init: Ledger, d: Db, id: nat)
    requires Inv(lockKey, init, d) && Enabled(lockKey, d, Finish(id))
    ensures Inv(lockKey, init, Next(lockKey, d, Finish(id)))
  {
    hide Knows, Rejection, KeysApart;
    var e := Next(lockKey, d, Finish(id));
    var t := d.txns[id];
    assert TxnOk(lockKey, d, id);
    if !d.log.Has(id) {
      NewKeyIsNew(d.ledger, t.request, t.phase.response, t.phase.buffer);
    }
    forall j | j in e.txns ensures TxnOk(lockKey, e, j) {
      if j != id {
        BystanderOk(lockKey, d, e, id, j);
      }
    }
    assert KeysApart(e) by { FewerReadyApart(d, e, id); }
  }

  lemma FewerReadyApart(d: Db, e: Db, id: nat)
    requires KeysApart(d) && id in d.txns && id in e.txns && !e.txns[id].phase.Ready?
    requires e.txns == d.txns[id := e.txns[id]]
    ensures KeysApart(e)
  {}

  lemma StepKeeps(lockKey: string -> int, init: Ledger, d: Db, act: Action)
    requires Inv(lockKey, init, d) && Enabled(lockKey, d, act)
    ensures Inv(lockKey, init, Next(lockKey, d, act))
  {
    hide Inv;
    match act
    case Begin(id, q) => BeginKeeps(lockKey, init, d, id, q);
    case Acquire(id) => AcquireKeeps(lockKey, init, d, id);
    case Execute(id) => ExecuteKeeps(lockKey, init, d, id);
    case Finish(id) => FinishKeeps(lockKey, init, d, id);
    case Kill(id) => AbortKeeps(lockKey, init, d, id);
  }

  // ----- Runs -----

  /** An interleaving: any actions of any transactions in any order. */
  datatype Run = Rest | Do(prior: Run, act: Action)

  ghost function At(lockKey: string -> int, init: Ledger, run: Run): Option<Db> {
    match run
    case Rest => Some(Db(init, map[], map[], Empty))
    case Do(prior, act) =>
      match At(lockKey, init, prior)
      case None => None
      case Some(d) => if Enabled(lockKey, d, act) then Some(Next(lockKey, d, act)) else None
  }

  lemma {:induction false} ReachableInv(lockKey: string -> int, init: Ledger, run: Run)
    requires At(lockKey, init, run).Some?
    ensures Inv(lockKey, init, At(lockKey, init, run).value)
  {
    match run
    case Rest => InitialInv(lockKey, init);
    case Do(prior, act) =>
      ReachableInv(lockKey, init, prior);
      StepKeeps(lockKey, init, At(lockKey, init, prior).value, act);
  }

  /**
   `log` runs whole calls one at a time from `init`, ends in the ledger of `d`, gives every completed call
   the response it got, and holds nothing but completed calls and calls already bound to be rejected: no
   unfinished call explains a write.
   */
  ghost predicate Explains(init: Ledger, log: Log, d: Db) {
    && log.Replay(init) == d.ledger
    && log.Honest(init)
    && log.Distinct()
    && (forall id | id in d.txns && d.txns[id].phase.Finished? ::
          log.Has(id) && log.Of(id) == Entry(id, d.txns[id].request, d.txns[id].phase.response))
    && (forall id | log.Has(id) ::
          && id in d.txns
          && log.Of(id).request == d.txns[id].request
          && (|| d.txns[id].phase.Finished?
              || (d.txns[id].phase.Holding() && d.txns[id].phase.buffer.Clean?
                  && Rejection(d.txns[id].request, log.Of(id).response))))
  }

  lemma {:induction false} OfHasId(log: Log, id: nat)
    requires log.Has(id)
    ensures log.Of(id).id == id
  {
    if log.entry.id != id {
      OfHasId(log.prior, id);
    }
  }

  /** Every interleaving, with crashes and aborts anywhere, is explained by atomic calls. */
  lemma Linearizable(lockKey: string -> int, init: Ledger, run: Run)
    requires At(lockKey, init, run).Some?
    ensures var d := At(lockKey, init, run).value; Explains(init, d.log, d)
  {
    ReachableInv(lockKey, init, run);
    var d := At(lockKey, init, run).value;
    forall id | id in d.txns ensures d.log.Has(id) ==> d.log.Of(id).id == id && TxnOk(lockKey, d, id) {
      if d.log.Has(id) {
        OfHasId(d.log, id);
      }
    }
    forall id | d.log.Has(id)
      ensures d.log.Of(id).request == d.txns[id].request
      ensures || d.txns[id].phase.Finished?
              || (d.txns[id].phase.Holding() && d.txns[id].phase.buffer.Clean?
                  && Rejection(d.txns[id].request, d.log.Of(id).response))
    {
      assert TxnOk(lockKey, d, id);
    }
  }

  // ----- A transaction left alone -----

  ghost predicate Extends(late: Run, early: Run) {
    late == early || (late.Do? && Extends(late.prior, early))
  }

  /** The transaction's statements, executed one after the other against the same rows. */
  function RunOut(a: Ledger, q: Request, step: nat, b: Buffer, fuel: nat): Phase
    decreases fuel
  {
    if fuel == 0 then Running(step, b)
    else
      match Statement(a, q, step, b)
      case Running(s, c) => RunOut(a, q, s, c, fuel - 1)
      case p => p
  }

  /** At most five statements, and then a COMMIT that makes it the atomic call. */
  lemma RunOutServes(a: Ledger, q: Request)
    ensures var p := RunOut(a, q, 0, Clean, 5);
            p.Ready? && Serve(Postgres, a, q) == (Applied(a, q.outcome, p.buffer), p.response)
  {
    match q
    case FenceAt(o, e) =>
      if a.Fence(o) <= e {
        assert RunOut(a, q, 0, Clean, 5) == RunOut(a, q, 1, Clean, 4);
        if o !in a.refusals {
          assert RunOut(a, q, 1, Clean, 4) == RunOut(a, q, 2, Clean, 3);
        }
      }
    case Refuse(o, e, id) => RefuseRunsOut(a, o, e, id);
    case Commit(o, e, k) => CommitRunsOut(a, o, e, k);
  }

  lemma RefuseRunsOut(a: Ledger, o: string, e: int, id: string)
    ensures var (p, q) := (RunOut(a, Refuse(o, e, id), 0, Clean, 5), Refuse(o, e, id));
            p.Ready? && Serve(Postgres, a, q) == (Applied(a, o, p.buffer), p.response)
  {
    var q := Refuse(o, e, id);
    if o !in a.refusals {
      assert RunOut(a, q, 0, Clean, 5) == RunOut(a, q, 1, Clean, 4);
      if a.Fence(o) <= e {
        assert RunOut(a, q, 1, Clean, 4) == RunOut(a, q, 2, Clean, 3);
        if !a.Committed(o) {
          assert RunOut(a, q, 2, Clean, 3) == RunOut(a, q, 3, Clean, 2);
          assert RunOut(a, q, 3, Clean, 2) == RunOut(a, q, 4, FenceRow(e), 1);
        }
      }
    }
  }

  lemma CommitRunsOut(a: Ledger, o: string, e: int, k: string)
    ensures var (p, q) := (RunOut(a, Commit(o, e, k), 0, Clean, 5), Commit(o, e, k));
            p.Ready? && Serve(Postgres, a, q) == (Applied(a, o, p.buffer), p.response)
  {
    var q := Commit(o, e, k);
    if o !in a.refusals {
      assert RunOut(a, q, 0, Clean, 5) == RunOut(a, q, 1, Clean, 4);
      if a.Fence(o) == e {
        assert RunOut(a, q, 1, Clean, 4) == RunOut(a, q, 2, Clean, 3);
        if k !in a.effects {
          assert RunOut(a, q, 2, Clean, 3) == RunOut(a, q, 3, Clean, 2);
          if !a.Committed(o) {
            assert RunOut(a, q, 3, Clean, 2) == RunOut(a, q, 4, Clean, 1);
          }
        }
      }
    }
  }

  /** No other transaction stands in the way of this one's last INSERT. */
  predicate Unhindered(d: Db, id: nat) {
    id in d.txns
    && (d.txns[id].request.Commit? ==>
          forall j | j in d.txns && j != id && d.txns[j].phase.Holding() && d.txns[j].phase.buffer.EffectRow? ::
            d.txns[j].phase.buffer.idem != d.txns[id].request.idem && d.txns[j].request.outcome != d.txns[id].request.outcome)
  }

  lemma UnhinderedIsFree(d: Db, id: nat)
    requires Unhindered(d, id) && d.txns[id].request.Commit?
    ensures !Contended(d, id, d.txns[id].request.idem, d.txns[id].request.outcome)
  {}

  lemma StaysUnhindered(d: Db, id: nat, e: Db)
    requires Unhindered(d, id) && id in e.txns && e.txns == d.txns[id := e.txns[id]]
    requires e.txns[id].request == d.txns[id].request
    ensures Unhindered(e, id)
  {}

  lemma {:induction false} ExecutesOut(lockKey: string -> int, init: Ledger, run: Run, d: Db, id: nat, fuel: nat)
    returns (late: Run, e: Db)
    requires At(lockKey, init, run) == Some(d) && Unhindered(d, id) && d.txns[id].phase.Running?
    requires RunOut(d.ledger, d.txns[id].request, d.txns[id].phase.step, d.txns[id].phase.buffer, fuel).Ready?
    ensures Extends(late, run) && At(lockKey, init, late) == Some(e) && e.ledger == d.ledger && id in e.txns
    ensures e.txns[id].request == d.txns[id].request
    ensures e.txns[id].phase == RunOut(d.ledger, d.txns[id].request, d.txns[id].phase.step, d.txns[id].phase.buffer, fuel)
    decreases fuel
  {
    var t := d.txns[id];
    var phase := Statement(d.ledger, t.request, t.phase.step, t.phase.buffer);
    if t.request.Commit? {
      UnhinderedIsFree(d, id);
    }
    late, e := Do(run, Execute(id)), Next(lockKey, d, Execute(id));
    hide Statement, Settled, Contended;
    if phase.Running? {
      StaysUnhindered(d, id, e);
      hide Next, At, Unhindered;
      var l := late;
      late, e := ExecutesOut(lockKey, init, late, e, id, fuel - 1);
      ExtendsOne(late, l, run);
    }
  }

  lemma {:induction false} ExtendsOne(a: Run, b: Run, c: Run)
    requires Extends(a, b) && b.Do? && b.prior == c
    ensures Extends(a, c)
  {
    if a != b {
      ExtendsOne(a.prior, b, c);
    }
  }

  /** Every lock is held by a transaction that is under way: ended and killed ones have released theirs. */
  lemma {:induction false} LocksAreHeld(lockKey: string -> int, init: Ledger, run: Run, h: int)
    requires At(lockKey, init, run).Some? && h in At(lockKey, init, run).value.holder
    ensures var d := At(lockKey, init, run).value;
            var id := d.holder[h];
            id in d.txns && d.txns[id].phase.Holding() && lockKey(d.txns[id].request.outcome) == h
  {
    var d := At(lockKey, init, run.prior).value;
    var act := run.act;
    if h in d.holder {
      LocksAreHeld(lockKey, init, run.prior, h);
    }
    if act.Execute? {
      StatementShape(d.ledger, d.txns[act.id].request, d.txns[act.id].phase.step, d.txns[act.id].phase.buffer);
    }
    hide Statement, Settled, Contended;
  }

  /**
   A transaction that gets its lock and is not disturbed ends by itself, and is the atomic call: no statement
   blocks it, and it neither aborts nor asks a question too many.
   */
  lemma AloneIsAtomic(lockKey: string -> int, init: Ledger, run: Run, d: Db, id: nat) returns (late: Run, e: Db)
    requires At(lockKey, init, run) == Some(d) && Unhindered(d, id) && d.txns[id].phase.Waiting?
    requires lockKey(d.txns[id].request.outcome) !in d.holder
    ensures Extends(late, run) && At(lockKey, init, late) == Some(e)
    ensures id in e.txns && e.txns[id].phase.Finished?
    ensures (e.ledger, e.txns[id].phase.response) == Serve(Postgres, d.ledger, d.txns[id].request)
  {
    var q := d.txns[id].request;
    RunOutServes(d.ledger, q);
    var l, m := Do(run, Acquire(id)), Next(lockKey, d, Acquire(id));
    StaysUnhindered(d, id, m);
    hide Statement, Settled, Contended, Serve, RunOut, Applied;
    var r, f := ExecutesOut(lockKey, init, l, m, id, 5);
    ExtendsOne(r, l, run);
    late, e := Do(r, Finish(id)), Next(lockKey, f, Finish(id));
  }

  // ----- Real-time order -----

  lemma {:induction false} WithoutPrecedes(log: Log, id: nat, a: nat, b: nat)
    requires log.Distinct() && log.Precedes(a, b) && id != a && id != b
    ensures log.Without(id).Precedes(a, b)
  {
    WithoutFacts(log.prior, id, a);
    if log.entry.id != b {
      WithoutPrecedes(log.prior, id, a, b);
    }
  }

  lemma {:induction false} PrefixReachable(lockKey: string -> int, init: Ledger, early: Run, late: Run)
    requires Extends(late, early) && At(lockKey, init, late).Some?
    ensures At(lockKey, init, early).Some?
  {
    if late != early {
      PrefixReachable(lockKey, init, early, late.prior);
    }
  }

  /** A call that completed before another began comes before it in the explanation. */
  lemma {:induction false} RealTimeOrder(lockKey: string -> int, init: Ledger, early: Run, late: Run, a: nat, b: nat)
    requires Extends(late, early) && At(lockKey, init, late).Some? && At(lockKey, init, early).Some?
    requires var d := At(lockKey, init, early).value; a in d.txns && d.txns[a].phase.Finished? && b !in d.txns
    ensures var e := At(lockKey, init, late).value;
            && a in e.txns && e.txns[a].phase.Finished?
            && (e.log.Has(b) ==> e.log.Precedes(a, b))
  {
    ReachableInv(lockKey, init, late);
    if late != early {
      RealTimeOrder(lockKey, init, early, late.prior, a, b);
      ReachableInv(lockKey, init, late.prior);
      var d := At(lockKey, init, late.prior).value;
      var e := At(lockKey, init, late).value;
      StepOrders(lockKey, d, late.act, a, b);
    }
  }

  lemma StepOrders(lockKey: string -> int, d: Db, act: Action, a: nat, b: nat)
    requires Enabled(lockKey, d, act) && d.log.Distinct()
    requires a in d.txns && d.txns[a].phase.Finished? && d.log.Has(a)
    requires d.log.Has(b) ==> d.log.Precedes(a, b)
    ensures var e := Next(lockKey, d, act);
            && a in e.txns && e.txns[a].phase.Finished?
            && (e.log.Has(b) ==> e.log.Precedes(a, b))
  {
    hide Statement, Settled;
    var e := Next(lockKey, d, act);
    if e.log == d.log.Without(act.id) && act.id != a {
      WithoutFacts(d.log, act.id, b);
      if e.log.Has(b) {
        WithoutPrecedes(d.log, act.id, a, b);
      }
    }
  }

  // ----- Safety of the interleaved authority -----

  lemma {:induction false} ReplayKept(log: Log, init: Ledger)
    requires Kept(Postgres, init)
    ensures Kept(Postgres, log.Replay(init))
  {
    if log.Logged? {
      ReplayKept(log.prior, init);
      ServeKeeps(Postgres, log.prior.Replay(init), log.entry.request);
    }
  }

  /** In no reachable database is an outcome both refused and committed, or committed twice. */
  lemma InterleavedSafety(lockKey: string -> int, init: Ledger, run: Run)
    requires Kept(Postgres, init) && At(lockKey, init, run).Some?
    ensures Kept(Postgres, At(lockKey, init, run).value.ledger)
  {
    ReachableInv(lockKey, init, run);
    ReplayKept(At(lockKey, init, run).value.log, init);
  }
}
