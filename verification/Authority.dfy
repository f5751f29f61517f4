/**
 The external authority: per-outcome fences, terminal refusals and effects.
 `Serve` is one request handled atomically, in its two deployed forms
 (postgres_authority.py and the in-memory branch of external_authority_server.py);
 `Reference` is the repository's own contract for a fenced authority
 (tests/test_atomic_fence_authority_v1.py).
 */
module Authority {
  import opened Base

  datatype Refused = Refused(epoch: int, id: string)

  datatype Effect = Effect(outcome: string, epoch: int)

  datatype Ledger = Ledger(
    fences: map<string, int>, refusals: map<string, Refused>, effects: map<string, Effect>)
  {
    function Fence(outcome: string): int {
      GetOr(fences, outcome, 0)
    }

    predicate Committed(outcome: string) {
      exists k | k in effects :: effects[k].outcome == outcome
    }
  }

  datatype Request =
    | FenceAt(outcome: string, epoch: int)
    | Refuse(outcome: string, epoch: int, id: string)
    | Commit(outcome: string, epoch: int, idem: string)

  datatype Response =
    | Done                                  // 200 {"ok": true}
    | DoneOnce(idempotent: bool)            // 200 {"ok": true, "idempotent": ...}
    | OtherRefusal                          // 200 {"ok": false, "idempotent": false}
    | FenceRollback
    | TerminalRefusal
    | StaleFence
    | KeyReuse
    | AlreadyCommitted(late: bool)
  {
    /** The "ok" field. */
    predicate Ok() { Done? || DoneOnce? }
  }

  datatype Kind = Postgres | Memory

  function Serve(kind: Kind, a: Ledger, r: Request): (Ledger, Response) {
    match r
    case FenceAt(o, e) =>
      if e < a.Fence(o) then (a, FenceRollback)
      else if o in a.refusals then (a, TerminalRefusal)
      else (a.(fences := a.fences[o := e]), Done)
    case Refuse(o, e, id) =>
      if o in a.refusals then
        (a, if a.refusals[o] == Refused(e, id) then DoneOnce(true) else OtherRefusal)
      else if e < a.Fence(o) then (a, FenceRollback)
      else if kind.Postgres? && a.Committed(o) then (a, AlreadyCommitted(true))
      else (a.(fences := a.fences[o := e], refusals := a.refusals[o := Refused(e, id)]), DoneOnce(false))
    case Commit(o, e, k) =>
      if o in a.refusals then (a, TerminalRefusal)
      else if a.Fence(o) != e then (a, StaleFence)
      else if k in a.effects then
        if kind.Memory? || a.effects[k].outcome == o then (a, DoneOnce(true)) else (a, KeyReuse)
      else if a.Committed(o) then (a, AlreadyCommitted(false))
      else (a.(effects := a.effects[k := Effect(o, e)]), DoneOnce(false))
  }

  // ----- What each answer means -----

  /** The response to each kind of request, and the one row that an acceptance that is no repetition writes. */
  lemma ServeAnswers(kind: Kind, a: Ledger, r: Request)
    ensures var (b, response) := Serve(kind, a, r);
            var refused := r.outcome in a.refusals;
            var fence := if r.outcome in a.fences then a.fences[r.outcome] else 0;
            var committed := exists k :: k in a.effects && a.effects[k].outcome == r.outcome;
            match r
            case FenceAt(o, e) =>
              (match response
               case FenceRollback => e < fence && b == a
               case TerminalRefusal => fence <= e && refused && b == a
               case Done => fence <= e && !refused && b == Ledger(a.fences[o := e], a.refusals, a.effects)
               case _ => false)
            case Refuse(o, e, id) =>
              (match response
               case DoneOnce(true) => refused && a.refusals[o].epoch == e && a.refusals[o].id == id && b == a
               case OtherRefusal => refused && !(a.refusals[o].epoch == e && a.refusals[o].id == id) && b == a
               case FenceRollback => !refused && e < fence && b == a
               case AlreadyCommitted(late) => !refused && fence <= e && kind == Postgres && committed && late && b == a
               case DoneOnce(false) =>
                 && !refused && fence <= e && (kind == Postgres ==> !committed)
                 && b == Ledger(a.fences[o := e], a.refusals[o := Refused(e, id)], a.effects)
               case _ => false)
            case Commit(o, e, k) =>
              var taken := k in a.effects && kind == Postgres && a.effects[k].outcome != o;
              (match response
               case TerminalRefusal => refused && b == a
               case StaleFence => !refused && fence != e && b == a
               case KeyReuse => !refused && fence == e && taken && b == a
               case DoneOnce(true) => !refused && fence == e && k in a.effects && !taken && b == a
               case AlreadyCommitted(late) => !refused && fence == e && k !in a.effects && committed && !late && b == a
               case DoneOnce(false) =>
                 && !refused && fence == e && k !in a.effects && !committed
                 && b == Ledger(a.fences, a.refusals, a.effects[k := Effect(o, e)])
               case _ => false)
  {}

  /** An acceptance says whether it was a repetition: then, and only then, it changes nothing. */
  lemma RepetitionChangesNothing(kind: Kind, a: Ledger, r: Request)
    requires Serve(kind, a, r).1.DoneOnce?
    ensures Serve(kind, a, r).1.idempotent <==> Serve(kind, a, r).0 == a
    ensures Serve(kind, Serve(kind, a, r).0, r) == (Serve(kind, a, r).0, DoneOnce(true))
  {
    var b := Serve(kind, a, r).0;
    if r.Refuse? {
      assert r.outcome in b.refusals;
    } else {
      assert r.idem in b.effects;
    }
  }

  // ----- What every request keeps -----

  /** One effect per outcome, and a refused outcome's fence stands at its refusal epoch. */
  ghost predicate Sound(a: Ledger) {
    && (forall o | o in a.fences :: 0 <= a.fences[o])
    && (forall k, l | k in a.effects && l in a.effects && a.effects[k].outcome == a.effects[l].outcome :: k == l)
    && (forall o | o in a.refusals :: a.Fence(o) == a.refusals[o].epoch)
  }

  /** The stronger property of the database form: no outcome is both refused and committed. */
  ghost predicate Exclusive(a: Ledger) {
    forall o | o in a.refusals :: !a.Committed(o)
  }

  ghost predicate Kept(kind: Kind, a: Ledger) {
    Sound(a) && (kind.Postgres? ==> Exclusive(a))
  }

  lemma ServeKeeps(kind: Kind, a: Ledger, r: Request)
    requires Kept(kind, a)
    ensures Kept(kind, Serve(kind, a, r).0)
  {
    var b := Serve(kind, a, r).0;
    forall o | o in b.refusals && kind.Postgres? ensures !b.Committed(o) {
      assert o in a.refusals ==> !a.Committed(o);
    }
    if r.Commit? && b != a {
      forall k, l | k in b.effects && l in b.effects && b.effects[k].outcome == b.effects[l].outcome
        ensures k == l
      {
        assert !a.Committed(r.outcome);
      }
    }
  }

  /** How a ledger may evolve: refusals are permanent and freeze their fence, effects are permanent, fences rise. */
  ghost predicate Evolves(a: Ledger, b: Ledger) {
    RefusalsStand(a, b) && EffectsStand(a, b) && FencesRise(a, b)
  }

  ghost predicate RefusalsStand(a: Ledger, b: Ledger) {
    forall o | o in a.refusals :: o in b.refusals && b.refusals[o] == a.refusals[o] && b.Fence(o) == a.Fence(o)
  }

  ghost predicate EffectsStand(a: Ledger, b: Ledger) {
    forall k | k in a.effects :: k in b.effects && b.effects[k] == a.effects[k]
  }

  ghost predicate FencesRise(a: Ledger, b: Ledger) {
    forall o :: a.Fence(o) <= b.Fence(o)
  }

  /** No new effect for an outcome that was already refused. */
  ghost predicate NothingAfterRefusal(a: Ledger, b: Ledger) {
    forall k | k in b.effects && k !in a.effects :: b.effects[k].outcome !in a.refusals
  }

  lemma ServeEvolves(kind: Kind, a: Ledger, r: Request)
    requires Sound(a)
    ensures Evolves(a, Serve(kind, a, r).0)
  {
    var b := Serve(kind, a, r).0;
    hide FencesRise;
    assert FencesRise(a, b) by { FencesNeverFall(kind, a, r); }
  }

  lemma FencesNeverFall(kind: Kind, a: Ledger, r: Request)
    ensures FencesRise(a, Serve(kind, a, r).0)
  {}

  lemma RefuseAddsNoEffect(kind: Kind, a: Ledger, o: string, e: int, id: string)
    ensures Serve(kind, a, Refuse(o, e, id)).0.effects == a.effects
  {}

  lemma ServeRespectsRefusals(kind: Kind, a: Ledger, r: Request)
    ensures NothingAfterRefusal(a, Serve(kind, a, r).0)
  {}

  lemma EvolvesTransitive(a: Ledger, b: Ledger, c: Ledger)
    requires Evolves(a, b) && Evolves(b, c)
    ensures Evolves(a, c)
    ensures NothingAfterRefusal(a, b) && NothingAfterRefusal(b, c) ==> NothingAfterRefusal(a, c)
  {}

  /** A finite history of requests, latest last. */
  datatype History = Start | Then(prior: History, last: Request)

  function ServeAll(kind: Kind, a: Ledger, h: History): Ledger {
    match h
    case Start => a
    case Then(prior, r) => Serve(kind, ServeAll(kind, a, prior), r).0
  }

  function Responses(kind: Kind, a: Ledger, h: History): seq<Response> {
    match h
    case Start => []
    case Then(prior, r) => Responses(kind, a, prior) + [Serve(kind, ServeAll(kind, a, prior), r).1]
  }

  /**
   Safety over every request history: from a sound ledger the authority never reaches a state with two
   effects for one outcome or a moved refusal fence, never forgets a refusal or an effect, never lowers a
   fence, and never adds an effect for an outcome that was already refused.
   */
  lemma {:induction false} ServeAllSafe(kind: Kind, a: Ledger, h: History)
    requires Kept(kind, a)
    ensures Kept(kind, ServeAll(kind, a, h))
    ensures Evolves(a, ServeAll(kind, a, h)) && NothingAfterRefusal(a, ServeAll(kind, a, h))
  {
    match h
    case Start =>
      EvolvesReflexive(a);
    case Then(prior, r) =>
      hide Evolves, NothingAfterRefusal, Sound, Exclusive;
      ServeAllSafe(kind, a, prior);
      var b := ServeAll(kind, a, prior);
      ServeKeeps(kind, b, r);
      ServeEvolves(kind, b, r);
      ServeRespectsRefusals(kind, b, r);
      EvolvesTransitive(a, b, ServeAll(kind, a, h));
  }

  lemma EvolvesReflexive(a: Ledger)
    ensures Evolves(a, a) && NothingAfterRefusal(a, a)
  {}

  /** Once the database form has refused an outcome, no later state commits it. */
  lemma RefusedNeverCommits(a: Ledger, h: History, o: string)
    requires Kept(Postgres, a) && o in a.refusals
    ensures !ServeAll(Postgres, a, h).Committed(o)
  {
    ServeAllSafe(Postgres, a, h);
    assert o in ServeAll(Postgres, a, h).refusals;
  }

  const GENESIS := Ledger(map[], map[], map[])

  /** The in-memory form lacks that exclusion: it refuses an outcome after committing it. */
  lemma MemoryRefusesAfterCommit()
    ensures var a := ServeAll(Memory, GENESIS, Then(Then(Start, Commit("aa", 0, "k")), Refuse("aa", 1, "r")));
            "aa" in a.refusals && a.Committed("aa")
  {
    var h := Then(Start, Commit("aa", 0, "k"));
    var a1 := ServeAll(Memory, GENESIS, h);
    assert a1.effects == map["k" := Effect("aa", 0)];
    var a2 := ServeAll(Memory, GENESIS, Then(h, Refuse("aa", 1, "r")));
    assert a2.effects["k"].outcome == "aa";
  }

  /**
   From an exclusive ledger, the refusal of a committed outcome is exactly what makes the in-memory form lose
   exclusion.
   */
  lemma MemoryLosesExclusionExactly(a: Ledger, r: Request)
    requires Sound(a) && Exclusive(a)
    ensures Exclusive(Serve(Memory, a, r).0) <==> !(r.Refuse? && a.Committed(r.outcome) && a.Fence(r.outcome) <= r.epoch)
  {
    var b := Serve(Memory, a, r).0;
    if r.Refuse? && a.Committed(r.outcome) && a.Fence(r.outcome) <= r.epoch {
      assert r.outcome !in a.refusals;
      assert r.outcome in b.refusals && b.Committed(r.outcome);
    } else {
      forall o | o in b.refusals ensures !b.Committed(o) {
        if o in a.refusals {
          assert !a.Committed(o);
        }
      }
    }
  }

  // ----- The two deployed forms compared -----

  /** The only two situations in which the deployed forms answer differently. */
  ghost predicate Disagreement(a: Ledger, r: Request) {
    match r
    case FenceAt(_, _) => false
    case Refuse(o, e, _) => o !in a.refusals && a.Fence(o) <= e && a.Committed(o)
    case Commit(o, e, k) => o !in a.refusals && a.Fence(o) == e && k in a.effects && a.effects[k].outcome != o
  }

  /**
   From one ledger the two forms agree on a request, in response and in state, exactly when it is not one of
   those.
   */
  lemma FormsAgreeExactly(a: Ledger, r: Request)
    ensures Serve(Postgres, a, r) == Serve(Memory, a, r) <==> !Disagreement(a, r)
  {}

  /** No key is paired with two outcomes: `owner` names the one outcome each key may stand for. */
  ghost predicate KeysOwned(owner: string -> string, h: History) {
    h.Then? ==> (h.last.Commit? ==> owner(h.last.idem) == h.last.outcome) && KeysOwned(owner, h.prior)
  }

  ghost predicate EffectsOwned(owner: string -> string, a: Ledger) {
    forall k | k in a.effects :: owner(k) == a.effects[k].outcome
  }

  /** No refusal arrives for an outcome that is already committed when it arrives. */
  ghost predicate RefusalsInTime(a: Ledger, h: History) {
    h.Then? ==>
      && (h.last.Refuse? ==> !ServeAll(Memory, a, h.prior).Committed(h.last.outcome))
      && RefusalsInTime(a, h.prior)
  }

  /**
   On every request history that pairs no key with two outcomes and never refuses a committed outcome,
   the two forms give the same response to every request and stay in the same state.
   */
  lemma {:induction false} FormsAgree(owner: string -> string, a: Ledger, h: History)
    requires EffectsOwned(owner, a) && KeysOwned(owner, h) && RefusalsInTime(a, h)
    ensures ServeAll(Postgres, a, h) == ServeAll(Memory, a, h)
    ensures Responses(Postgres, a, h) == Responses(Memory, a, h)
    ensures EffectsOwned(owner, ServeAll(Memory, a, h))
  {
    if h.Then? {
      FormsAgree(owner, a, h.prior);
      var b := ServeAll(Memory, a, h.prior);
      assert !Disagreement(b, h.last);
      FormsAgreeExactly(b, h.last);
    }
  }

  /** An accepted commit leaves the outcome with an effect under that key, except where the in-memory form disagrees. */
  lemma AcceptedCommitHolds(kind: Kind, a: Ledger, o: string, e: int, k: string)
    requires Serve(kind, a, Commit(o, e, k)).1.Ok()
    ensures var b := Serve(kind, a, Commit(o, e, k)).0;
            && k in b.effects
            && (b.effects[k].outcome == o <==> !(kind.Memory? && Disagreement(a, Commit(o, e, k))))
  {}

  // ----- The reference contract -----

  /** `AtomicFenceAuthority`: `None` where it raises. It records the outcome of each effect, not its epoch. */
  function Reference(a: Ledger, r: Request): Option<Ledger> {
    match r
    case FenceAt(o, e) =>
      if o in a.refusals || e < a.Fence(o) then None else Some(a.(fences := a.fences[o := e]))
    case Refuse(o, e, id) =>
      if a.Fence(o) > e then None
      else if o in a.refusals then (if a.refusals[o] != Refused(e, id) then None else Some(a))
      else Some(a.(fences := a.fences[o := e], refusals := a.refusals[o := Refused(e, id)]))
    case Commit(o, e, k) =>
      if o in a.refusals || a.Fence(o) != e then None
      else if k in a.effects then Some(a)
      else Some(a.(effects := a.effects[k := Effect(o, e)]))
  }

  /** Every request a deployed form accepts is accepted by the reference contract with the same change. */
  lemma RefinesReference(kind: Kind, a: Ledger, r: Request)
    requires Sound(a)
    ensures Serve(kind, a, r).1.Ok() ==> Reference(a, r) == Some(Serve(kind, a, r).0)
    ensures !Serve(kind, a, r).1.Ok() ==> Serve(kind, a, r).0 == a
  {}

  /**
   The converse holds except where the deployed forms are deliberately stricter: a second key for a
   committed outcome, and in the database form a late refusal or a key already spent on another outcome.
   */
  lemma StricterThanReferenceExactly(kind: Kind, a: Ledger, r: Request)
    requires Sound(a)
    ensures Reference(a, r).Some? && !Serve(kind, a, r).1.Ok() <==>
      || (kind.Postgres? && Disagreement(a, r))
      || (r.Commit? && r.outcome !in a.refusals && a.Fence(r.outcome) == r.epoch
          && r.idem !in a.effects && a.Committed(r.outcome))
  {}
}
