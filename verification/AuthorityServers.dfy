/** The three authorities as the source writes them: mutable tables, dictionaries and fields. */
module AuthorityServers {
  import opened Base
  import opened Authority

  /** What `state()` reports. */
  datatype Report = Report(
    fences: map<string, int>, refusals: map<string, Refused>, effects: map<string, Effect>,
    committed: map<string, string>)

  /** `{r["outcome_key"]: r["idempotency_key"] for r in dar_effects}`. */
  method ByOutcome(effects: map<string, Effect>) returns (m: map<string, string>)
    ensures forall o | o in m :: m[o] in effects && effects[m[o]].outcome == o
    ensures forall k | k in effects :: effects[k].outcome in m
  {
    m := map[];
    var todo := effects.Keys;
    while todo != {}
      invariant todo <= effects.Keys
      invariant forall o | o in m :: m[o] in effects && effects[m[o]].outcome == o
      invariant forall k | k in effects.Keys - todo :: effects[k].outcome in m
      decreases todo
    {
      var k :| k in todo;
      m := m[effects[k].outcome := k];
      todo := todo - {k};
    }
  }

  /** The tables dar_fences, dar_refusals and dar_effects; each method body is one locked transaction. */
  class PostgresAuthority {
    var fences: map<string, int>
    var refusals: map<string, Refused>
    var effects: map<string, Effect>

    ghost function Now(): Ledger
      reads this
    {
      Ledger(fences, refusals, effects)
    }

    constructor ()
      ensures Now() == GENESIS
    {
      fences, refusals, effects := map[], map[], map[];
    }

    method Fence(outcome: string, epoch: int) returns (r: Response)
      modifies this
      ensures (Now(), r) == Serve(Postgres, old(Now()), FenceAt(outcome, epoch))
    {
      var current := if outcome in fences then fences[outcome] else 0;
      if epoch < current {
        return FenceRollback;
      }
      if outcome in refusals {
        return TerminalRefusal;
      }
      fences := fences[outcome := epoch];
      return Done;
    }

    method RefuseOutcome(outcome: string, epoch: int, id: string) returns (r: Response)
      modifies this
      ensures (Now(), r) == Serve(Postgres, old(Now()), Refuse(outcome, epoch, id))
    {
      if outcome in refusals {
        var same := refusals[outcome].epoch == epoch && refusals[outcome].id == id;
        return if same then DoneOnce(true) else OtherRefusal;
      }
      var current := if outcome in fences then fences[outcome] else 0;
      if epoch < current {
        return FenceRollback;
      }
      if exists k | k in effects :: effects[k].outcome == outcome {
        return AlreadyCommitted(true);
      }
      fences := fences[outcome := if current > epoch then current else epoch];
      refusals := refusals[outcome := Refused(epoch, id)];
      return DoneOnce(false);
    }

    method CommitOutcome(outcome: string, epoch: int, idem: string) returns (r: Response)
      modifies this
      ensures (Now(), r) == Serve(Postgres, old(Now()), Commit(outcome, epoch, idem))
    {
      if outcome in refusals {
        return TerminalRefusal;
      }
      var current := if outcome in fences then fences[outcome] else 0;
      if current != epoch {
        return StaleFence;
      }
      if idem in effects {
        if effects[idem].outcome == outcome {
          return DoneOnce(true);
        }
        return KeyReuse;
      }
      if exists k | k in effects :: effects[k].outcome == outcome {
        return AlreadyCommitted(false);
      }
      effects := effects[idem := Effect(outcome, epoch)];
      return DoneOnce(false);
    }

    method Handle(q: Request) returns (r: Response)
      modifies this
      ensures (Now(), r) == Serve(Postgres, old(Now()), q)
    {
      match q {
        case FenceAt(o, e) => r := Fence(o, e);
        case Refuse(o, e, id) => r := RefuseOutcome(o, e, id);
        case Commit(o, e, k) => r := CommitOutcome(o, e, k);
      }
    }

    /** Any number of other clients' transactions commit. */
    method Elsewhere()
      requires Kept(Postgres, Now())
      modifies this
      ensures Kept(Postgres, Now()) && Evolves(old(Now()), Now())
    {
      hide Kept, Evolves;
      var requests: seq<Request> := *;
      EvolvesReflexive(Now());
      for i := 0 to |requests|
        invariant Kept(Postgres, Now()) && Evolves(old(Now()), Now())
      {
        ghost var before := Now();
        var _ := Handle(requests[i]);
        ServeKeeps(Postgres, before, requests[i]);
        KeptIsSound(Postgres, before);
        ServeEvolves(Postgres, before, requests[i]);
        EvolvesTransitive(old(Now()), before, Now());
      }
    }

    /**
     `state()`: four queries with other transactions committing in between. The report as a whole was
     never the state of the database, yet it never shows an outcome both refused and committed.
     */
    method State() returns (report: Report)
      requires Kept(Postgres, Now())
      modifies this
      ensures Kept(Postgres, Now()) && Evolves(old(Now()), Now())
      ensures forall o | o in report.refusals :: o !in report.committed
      ensures forall o | o in old(refusals) :: o in report.refusals && report.refusals[o] == old(refusals)[o]
      ensures forall k | k in report.effects :: report.effects[k].outcome in report.committed
    {
      hide Kept;
      var f := fences;
      ghost var l0 := Now();
      Elsewhere();
      var q := refusals;
      ghost var l1 := Now();
      Elsewhere();
      var e := effects;
      ghost var l2 := Now();
      Elsewhere();
      var c := ByOutcome(effects);
      ghost var l3 := Now();
      EvolvesTransitive(l0, l1, l2);
      EvolvesTransitive(l1, l2, l3);
      EvolvesTransitive(l0, l2, l3);
      forall o | o in q ensures o !in c {
        KeptIsExclusive(l3, o);
      }
      return Report(f, q, e, c);
    }
  }

  lemma KeptIsSound(kind: Kind, a: Ledger)
    requires Kept(kind, a)
    ensures Sound(a)
  {}

  lemma KeptIsExclusive(a: Ledger, o: string)
    requires Kept(Postgres, a)
    ensures o in a.refusals ==> forall k | k in a.effects :: a.effects[k].outcome != o
  {
    assert o in a.refusals ==> !a.Committed(o);
  }

  /** The dictionaries of the in-memory server; `effects` and `committed` must mirror each other. */
  class MemoryAuthority {
    var fences: map<string, int>
    var refusals: map<string, Refused>
    var effects: map<string, Effect>
    var committed: map<string, string>

    ghost function Now(): Ledger
      reads this
    {
      Ledger(fences, refusals, effects)
    }

    /** The two dictionaries are inverse to each other. */
    ghost predicate Valid()
      reads this
    {
      && (forall k | k in effects :: effects[k].outcome in committed && committed[effects[k].outcome] == k)
      && (forall o | o in committed :: committed[o] in effects && effects[committed[o]].outcome == o)
    }

    constructor ()
      ensures Valid() && Now() == GENESIS
    {
      fences, refusals, effects, committed := map[], map[], map[], map[];
    }

    method Handle(q: Request) returns (r: Response)
      requires Valid()
      modifies this
      ensures Valid()
      ensures (Now(), r) == Serve(Memory, old(Now()), q)
    {
      match q {
        case FenceAt(outcome, epoch) =>
          if epoch < GetOr(fences, outcome, 0) {
            return FenceRollback;
          }
          if outcome in refusals {
            return TerminalRefusal;
          }
          fences := fences[outcome := epoch];
          return Done;
        case Refuse(outcome, epoch, id) =>
          var existing := Get(refusals, outcome);
          if existing != None {
            var same := existing == Some(Refused(epoch, id));
            return if same then DoneOnce(true) else OtherRefusal;
          }
          if epoch < GetOr(fences, outcome, 0) {
            return FenceRollback;
          }
          fences := fences[outcome := epoch];
          refusals := refusals[outcome := Refused(epoch, id)];
          return DoneOnce(false);
        case Commit(outcome, epoch, idem) =>
          if outcome in refusals {
            return TerminalRefusal;
          }
          if GetOr(fences, outcome, 0) != epoch {
            return StaleFence;
          }
          if idem in effects {
            return DoneOnce(true);
          }
          if outcome in committed {
            return AlreadyCommitted(false);
          }
          effects := effects[idem := Effect(outcome, epoch)];
          committed := committed[outcome := idem];
          return DoneOnce(false);
      }
    }
  }

  /** What the reference authority keeps of an effect. */
  datatype Receipt = Receipt(outcome: string, params: string)

  /** The repository's reference authority; `false` stands for a raised exception. */
  class AtomicFenceAuthority {
    var fences: map<string, int>
    var refusals: map<string, Refused>
    var effects: map<string, Receipt>
    ghost var entries: map<string, Effect>      // the effects with the epochs they were committed under

    ghost predicate Valid()
      reads this
    {
      entries.Keys == effects.Keys && forall k | k in effects :: entries[k].outcome == effects[k].outcome
    }

    ghost function Now(): Ledger
      reads this
    {
      Ledger(fences, refusals, entries)
    }

    constructor ()
      ensures Valid() && Now() == GENESIS
    {
      fences, refusals, effects, entries := map[], map[], map[], map[];
    }

    method AdvanceFence(outcome: string, epoch: int) returns (ok: bool)
      requires Valid()
      modifies this
      ensures Valid()
      ensures Reference(old(Now()), FenceAt(outcome, epoch)) == if ok then Some(Now()) else None
      ensures !ok ==> Now() == old(Now())
    {
      if outcome in refusals {
        return false;
      }
      var current := GetOr(fences, outcome, 0);
      if epoch < current {
        return false;
      }
      fences := fences[outcome := epoch];
      return true;
    }

    method RefuseOutcome(outcome: string, epoch: int, id: string) returns (ok: bool)
      requires Valid()
      modifies this
      ensures Valid()
      ensures Reference(old(Now()), Refuse(outcome, epoch, id)) == if ok then Some(Now()) else None
      ensures !ok ==> Now() == old(Now())
    {
      var current := GetOr(fences, outcome, 0);
      if current > epoch {
        return false;
      }
      if outcome in refusals {
        return refusals[outcome] == Refused(epoch, id);
      }
      fences := fences[outcome := epoch];
      refusals := refusals[outcome := Refused(epoch, id)];
      return true;
    }

    method CommitOutcome(idem: string, outcome: string, epoch: int, params: string) returns (ok: bool)
      requires Valid()
      modifies this
      ensures Valid()
      ensures Reference(old(Now()), Commit(outcome, epoch, idem)) == if ok then Some(Now()) else None
      ensures !ok ==> Now() == old(Now())
      ensures effects == if ok && idem !in old(effects) then old(effects)[idem := Receipt(outcome, params)] else old(effects)
    {
      if outcome in refusals {
        return false;
      }
      if GetOr(fences, outcome, 0) != epoch {
        return false;
      }
      if idem in effects {
        return true;
      }
      effects := effects[idem := Receipt(outcome, params)];
      entries := entries[idem := Effect(outcome, epoch)];
      return true;
    }
  }
}
