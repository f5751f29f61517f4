/**
 One node as the source writes it, kernel, effect gate and refusal authority over one store: methods that
 replace the store file, append to the journal and call the adapter one after the other. Every method extends
 `run`, so whatever holds in all runs of the protocol holds of these methods; foreign clients act between any
 two adapter calls.
 */
module Deployment {
  import opened Base
  import opened Durable
  import opened Kernel
  import opened Gate
  import opened Protocol
  import A = Authorisation
  import Acceptance
  import Store
  import J = Journal
  import Authority
  import R = Refusal
  import C = Calls
  import Fencing
  import opened Reconciliation
  import opened Spoiling
  import opened Steps

  /** The external systems behind a `FencedEffectAdapter`. */
  class Adapter {
    const kind: Authority.Kind
    var ledger: Authority.Ledger
    var applied: seq<string>
    var statuses: map<string, AdapterStatus>

    constructor (kind: Authority.Kind, ledger: Authority.Ledger, statuses: map<string, AdapterStatus>)
      ensures this.kind == kind && this.ledger == ledger && applied == [] && this.statuses == statuses
    {
      this.kind, this.ledger, this.applied, this.statuses := kind, ledger, [], statuses;
    }

    method IsRefused(outcome: string) returns (refused: bool)
      ensures refused <==> outcome in ledger.refusals
    {
      return outcome in ledger.refusals;
    }

    method CurrentFence(outcome: string) returns (fence: int)
      ensures fence == ledger.Fence(outcome)
    {
      return ledger.Fence(outcome);
    }

    /** Any request of the authority; the HTTP client turns `ok: false` and every error status into an exception. */
    method Send(q: Authority.Request) returns (ok: bool)
      modifies this`ledger
      ensures var (l, r) := Authority.Serve(kind, old(ledger), q); ledger == l && ok == r.Ok()
    {
      var (l, r) := Authority.Serve(kind, ledger, q);
      ledger := l;
      return r.Ok();
    }

    method Status(key: string) returns (status: AdapterStatus)
      ensures status == Reported(applied, statuses, key)
    {
      return Reported(applied, statuses, key);
    }

    /** The adapter's report about a key it has not applied changes. */
    method Drift(key: string, status: AdapterStatus)
      modifies this`statuses
      ensures statuses == old(statuses)[key := status]
    {
      statuses := statuses[key := status];
    }

    /** `execute` may fail to apply anything, and applies again what it is asked again. */
    method Execute(key: string) returns (happened: bool)
      modifies this`applied
      ensures applied == if happened then old(applied) + [key] else old(applied)
    {
      happened := *;
      if happened {
        applied := applied + [key];
      }
    }
  }

  ghost function FirstWorld(first: Snapshot, ledger: Authority.Ledger, statuses: map<string, AdapterStatus>): World {
    World(first, [], ledger, [], statuses, Idle, {}, map[], {}, false)
  }

  /** The kernel, the gate and the refusal authority, which share one store. */
  class Node {
    const config: Config
    const bootId: string
    const store: Store.FileStore
    const journal: J.EffectJournal
    const adapter: Adapter
    ghost var run: Run
    ghost var world: World

    /** The run so far leads to `world`, and the durable objects hold what it says. */
    ghost predicate Valid()
      reads this, store, journal, adapter
    {
      && At(config, run) == Some(world)
      && store.Holds(world.snap)
      && journal.log == world.log
      && adapter.kind == config.kind
      && adapter.ledger == world.ledger && adapter.applied == world.applied && adapter.statuses == world.statuses
    }

    /** A fresh deployment over an authority that may already hold fences, refusals and effects. */
    constructor (config: Config, bootId: string, first: Snapshot, anchored: bool, ledger: Authority.Ledger,
                 statuses: map<string, AdapterStatus>)
      requires Initial(config, FirstWorld(first, ledger, statuses))
      ensures Valid() && run == Boot(world) && world == FirstWorld(first, ledger, statuses)
      ensures fresh(store) && fresh(journal) && fresh(adapter)
      ensures this.config == config && this.bootId == bootId
    {
      this.config, this.bootId := config, bootId;
      store := new Store.FileStore(first, anchored);
      journal := new J.EffectJournal();
      adapter := new Adapter(config.kind, ledger, statuses);
      world := FirstWorld(first, ledger, statuses);
      run := Boot(FirstWorld(first, ledger, statuses));
    }

    /** One step of the protocol. */
    ghost method Step(act: Action, base: Run)
      requires At(config, run) == Some(world) && Enabled(world, act) && Extends(run, base)
      modifies this`run, this`world
      ensures At(config, run) == Some(world) && world == Next(config, old(world), act) && Extends(run, base)
    {
      hide Next, Enabled;
      AtDo(config, run, act, world);
      run := Do(run, act);
      world := Next(config, world, act);
    }

    ghost method Advance(base: Run)
      requires At(config, run) == Some(world) && Working(world.pc) && Extends(run, base)
      modifies this`run, this`world
      ensures At(config, run) == Some(world) && world == TickIntent(config, old(world)) && Extends(run, base)
    {
      hide Next, TickIntent;
      AtTick(config, run, world);
      run := Do(run, Tick);
      world := TickIntent(config, world);
    }

    method Read() returns (s: Snapshot)
      requires Valid()
      ensures s == world.snap
    {
      var r := store.ReadSnapshot();
      assert store.Holds(world.snap);
      return r.value;
    }

    method Write(s: Snapshot)
      requires exists t :: store.Holds(t) && t.sequence <= s.sequence
      modifies store
      ensures store.Holds(s)
    {
      var _ := store.WriteAtomic(s, false);
    }

    /** Other clients of the authority act, and what the adapter reports about unapplied keys may change. */
    method Interleave(ghost base: Run)
      requires Valid() && Extends(run, base)
      modifies this`run, this`world, adapter`ledger, adapter`statuses
      ensures Valid() && Extends(run, base)
      ensures world == old(world).(ledger := world.ledger, statuses := world.statuses)
    {
      hide At;
      var requests: seq<Authority.Request> := *;
      for i := 0 to |requests|
        invariant Valid() && Extends(run, base)
        invariant world == old(world).(ledger := world.ledger, statuses := world.statuses)
      {
        NextOutside(config, world, requests[i]);
        var _ := adapter.Send(requests[i]);
        Step(Foreign(requests[i]), base);
      }
      var reports: seq<(string, AdapterStatus)> := *;
      for i := 0 to |reports|
        invariant Valid() && Extends(run, base)
        invariant world == old(world).(ledger := world.ledger, statuses := world.statuses)
      {
        NextDrift(config, world, reports[i].0, reports[i].1);
        adapter.Drift(reports[i].0, reports[i].1);
        Step(Drift(reports[i].0, reports[i].1), base);
      }
    }

    /** The store and the journal are as before. */
    twostate predicate LocalsKept()
      reads this
    {
      world.snap == old(world.snap) && world.log == old(world.log)
    }

    method AskRefusedOutside(ghost flow: Flow, it: Intent, ghost base: Run) returns (refused: bool)
      requires Valid() && Extends(run, base) && world.pc == AskRefused(flow, it)
      modifies this`run, this`world, adapter
      ensures Valid() && Extends(run, base) && LocalsKept()
      ensures world.pc == if refused then Idle else AskFence(flow, it)
    {
      hide At, TickIntent;
      Interleave(base);
      refused := adapter.IsRefused(it.outcomeKey);
      TicksProtected(config, world);
      Advance(base);
    }

    method AskFenceOutside(ghost flow: Flow, it: Intent, ghost base: Run) returns (current: bool)
      requires Valid() && Extends(run, base) && world.pc == AskFence(flow, it)
      modifies this`run, this`world, adapter
      ensures Valid() && Extends(run, base) && LocalsKept()
      ensures world.pc == if current then CallCommit(flow, it) else Idle
    {
      hide At, TickIntent;
      Interleave(base);
      var fence := adapter.CurrentFence(it.outcomeKey);
      TicksProtected(config, world);
      Advance(base);
      return fence == it.epoch;
    }

    method CommitOutcomeOutside(ghost flow: Flow, it: Intent, ghost base: Run) returns (ok: bool)
      requires Valid() && Extends(run, base) && world.pc == CallCommit(flow, it)
      modifies this`run, this`world, adapter
      ensures Valid() && Extends(run, base) && LocalsKept()
      ensures world.pc == if ok then AppendCommitted(flow, it) else Idle
    {
      hide At, TickIntent, CommitOutside, Authority.Serve;
      Interleave(base);
      TicksProtected(config, world);
      OutsideCommit(config, world, flow, it);
      ok := adapter.Send(Authority.Commit(it.outcomeKey, it.epoch, it.idemKey));
      Advance(base);
    }

    /** `protected_commit`: three calls to the authority with other clients in between. */
    method ProtectedCommit(ghost flow: Flow, it: Intent, ghost base: Run) returns (ok: bool)
      requires Valid() && Extends(run, base) && world.pc == AskRefused(flow, it)
      modifies this`run, this`world, adapter
      ensures Valid() && Extends(run, base) && LocalsKept()
      ensures world.pc == if ok then AppendCommitted(flow, it) else Idle
    {
      hide Valid, Extends;
      var refused := AskRefusedOutside(flow, it, base);
      if refused {
        return false;
      }
      var current := AskFenceOutside(flow, it, base);
      if !current {
        return false;
      }
      ok := CommitOutcomeOutside(flow, it, base);
    }

    /** `adapter.execute`, then the status that has to confirm it. */
    method ExecuteOutside(ghost flow: Flow, it: Intent, ghost base: Run)
      requires Valid() && Extends(run, base) && world.pc == CallExecute(flow, it)
      modifies this`run, this`world, adapter
      ensures Valid() && Extends(run, base) && LocalsKept() && world.pc == Confirm(flow, it)
    {
      hide At, TickIntent, Next;
      Interleave(base);
      TicksRecoverable(config, world);
      NextUnapplied(config, world);
      var happened := adapter.Execute(it.idemKey);
      if happened {
        Advance(base);
      } else {
        Step(Unapplied, base);
      }
    }

    method ConfirmOutside(ghost flow: Flow, it: Intent, ghost base: Run) returns (ok: bool)
      requires Valid() && Extends(run, base) && world.pc == Confirm(flow, it)
      modifies this`run, this`world, adapter
      ensures Valid() && Extends(run, base) && LocalsKept()
      ensures world.pc == if ok then AppendCommitted(flow, it) else Idle
    {
      hide At, TickIntent, Reported;
      Interleave(base);
      TicksRecoverable(config, world);
      var status := adapter.Status(it.idemKey);
      Advance(base);
      return status.Committed?;
    }

    method StatusOutside(ghost flow: Flow, it: Intent, ghost base: Run) returns (status: AdapterStatus)
      requires Valid() && Extends(run, base) && world.pc == AskStatus(flow, it)
      modifies this`run, this`world, adapter
      ensures Valid() && Extends(run, base) && LocalsKept()
      ensures world.pc == AfterStatus(status, flow, it)
    {
      hide At, TickIntent, Reported;
      Interleave(base);
      TicksRecoverable(config, world);
      status := adapter.Status(it.idemKey);
      Advance(base);
    }

    /** `recover`: execute again only what the adapter does not report as committed. */
    method Recover(ghost flow: Flow, it: Intent, ghost base: Run) returns (ok: bool)
      requires Valid() && Extends(run, base) && world.pc == AskStatus(flow, it)
      modifies this`run, this`world, adapter
      ensures Valid() && Extends(run, base) && LocalsKept()
      ensures world.pc == if ok then AppendCommitted(flow, it) else Idle
    {
      hide Valid, Extends;
      var status := StatusOutside(flow, it, base);
      if status.Committed? {
        return true;
      }
      if !status.Unknown? && !status.Prepared? {
        return false;
      }
      ExecuteOutside(flow, it, base);
      ok := ConfirmOutside(flow, it, base);
    }

    // ----- Journal and store writes of one intent -----

    /** A direct call journals its new intent. */
    method PrepareDirect(it: Intent, ghost base: Run)
      requires Valid() && Extends(run, base) && world.pc == AppendPrepared(Direct, it)
      modifies this`run, this`world, journal
      ensures Valid() && Extends(run, base)
      ensures world == old(world).(
        log := old(world.log) + [RecordOf(J.Prepared, it)],
        pc := if it.outcomeKey != "" then AskRefused(Direct, it) else CallExecute(Direct, it))
    {
      hide At, TickIntent, RecordOf;
      journal.Append(RecordOf(J.Prepared, it));
      TicksDirect(config, world);
      Advance(base);
    }

    /** A direct call journals its success. */
    method CommitDirect(it: Intent, ghost base: Run)
      requires Valid() && Extends(run, base) && world.pc == AppendCommitted(Direct, it)
      modifies this`run, this`world, journal
      ensures Valid() && Extends(run, base)
      ensures world == old(world).(
        log := old(world.log) + [RecordOf(J.Committed, it)], pc := DropCommitted(Direct, it))
    {
      hide At, TickIntent, RecordOf;
      journal.Append(RecordOf(J.Committed, it));
      TicksDirect(config, world);
      Advance(base);
    }

    /** The store write that drops a finished intent. */
    method Drop(ghost flow: Flow, it: Intent, ghost base: Run)
      requires Valid() && Extends(run, base)
      requires world.pc == DropRefused(flow, it) || world.pc == DropCommitted(flow, it)
      modifies this`run, this`world, store
      ensures Valid() && Extends(run, base)
      ensures world == old(world).(snap := Settle(old(world.snap), it.key), pc := Resume(flow))
    {
      hide At, TickIntent, Settle;
      var s := Read();
      C.ReachableInv(config, run);
      C.SettleFrame(s, it.key);
      TicksDrop(config, world);
      hide C.Inv;
      Write(Settle(s, it.key));
      Advance(base);
    }

    // ----- The three execute paths -----

    /** Validate, admit, and record the intent in the store. */
    method RecordIntent(q: EffectRequest, params: string, protected: bool) returns (r: Result<Intent, Denied>)
      requires Valid() && world.pc.Idle? && Genuine(world, q.cap)
      modifies this`run, this`world, store
      ensures Valid() && Extends(run, old(run))
      ensures match Check(old(world.snap), bootId, q, Some(params), protected)
              case Some(d) => r == Err(d) && world == old(world)
              case None =>
                && r == Ok(IntentOf(old(world.snap), q, params, protected))
                && world == Record(old(world), q, params, protected)
    {
      hide At, Next, ValidateCommon, Admit, Genuine;
      var denied := ValidateCommon(q, Some(params), protected);
      if denied.Some? {
        return Err(denied.value);
      }
      var s := Read();
      denied := Admit(s, bootId, q, if protected then q.cap.claims.outcomeKey else "");
      if denied.Some? {
        return Err(denied.value);
      }
      var it := IntentOf(s, q, params, protected);
      Write(Spend(s, q, s.pending + [it]));
      EnterRecord(bootId, q, params, protected, run);
      return Ok(it);
    }

    ghost method EnterRecord(bootId: string, q: EffectRequest, params: string, protected: bool, base: Run)
      requires At(config, run) == Some(world) && world.pc.Idle? && Genuine(world, q.cap) && Extends(run, base)
      requires Check(world.snap, bootId, q, Some(params), protected).None?
      modifies this`run, this`world
      ensures At(config, run) == Some(world) && Extends(run, base)
      ensures world == Record(old(world), q, params, protected)
    {
      var act := if protected then Action.ExecuteProtected(bootId, q, params) else Action.ExecuteRecoverable(bootId, q, params);
      NextRecords(config, world, act);
      hide Next, Check, Record;
      Step(act, base);
    }

    /** After its effect is confirmed, a direct call journals success and drops its intent. */
    method FinishDirect(it: Intent, ghost before: seq<Intent>, ghost base: Run)
      requires Valid() && Extends(run, base) && world.pc == AppendCommitted(Direct, it)
      requires world.snap.pending == before + [it]
      modifies this`run, this`world, store, journal
      ensures Valid() && Extends(run, base) && world.pc.Idle?
      ensures world.snap == old(world.snap).(sequence := old(world.snap.sequence) + 1, pending := before)
      ensures world.log == old(world.log) + [RecordOf(J.Committed, it)]
    {
      DistinctInRun(config, run);
      DroppedLast(before, it);
      hide Valid, At, Extends, RecordOf, Dropped;
      CommitDirect(it, base);
      Drop(Direct, it, base);
    }

    /** What a direct call does after recording its intent: all or nothing of the intent is left in the store. */
    twostate predicate Driven(it: Intent, before: seq<Intent>, ok: bool)
      reads this
    {
      if ok then
        && world.snap == old(world.snap).(sequence := old(world.snap.sequence) + 1, pending := before)
        && world.log == old(world.log) + [RecordOf(J.Prepared, it)] + [RecordOf(J.Committed, it)]
      else
        && world.snap == old(world.snap)
        && world.log == old(world.log) + [RecordOf(J.Prepared, it)]
    }

    method DriveProtected(it: Intent, ghost before: seq<Intent>, ghost base: Run) returns (ok: bool)
      requires Valid() && Extends(run, base) && world.pc == AppendPrepared(Direct, it) && it.outcomeKey != ""
      requires world.snap.pending == before + [it]
      modifies this`run, this`world, store, journal, adapter
      ensures Valid() && world.pc.Idle? && Extends(run, base) && Driven(it, before, ok)
    {
      hide Valid, Extends, RecordOf;
      PrepareDirect(it, base);
      ok := ProtectedCommit(Direct, it, base);
      if ok {
        FinishDirect(it, before, base);
      }
    }

    method DriveRecoverable(it: Intent, ghost before: seq<Intent>, ghost base: Run) returns (ok: bool)
      requires Valid() && Extends(run, base) && world.pc == AppendPrepared(Direct, it) && it.outcomeKey == ""
      requires world.snap.pending == before + [it]
      modifies this`run, this`world, store, journal, adapter
      ensures Valid() && world.pc.Idle? && Extends(run, base) && Driven(it, before, ok)
    {
      hide Valid, Extends, RecordOf;
      PrepareDirect(it, base);
      ExecuteOutside(Direct, it, base);
      ok := ConfirmOutside(Direct, it, base);
      if ok {
        FinishDirect(it, before, base);
      }
    }

    /** `execute_protected`: an exception after the write-ahead leaves the intent pending. */
    method ExecuteProtected(q: EffectRequest, params: string) returns (r: Reply)
      requires Valid() && world.pc.Idle? && Genuine(world, q.cap)
      modifies this`run, this`world, store, journal, adapter
      ensures Valid() && world.pc.Idle? && Extends(run, old(run))
      ensures ExecutedFrom(bootId, old(world), q, params, true, r, world)
      ensures NamedIn(old(world.snap), q.effectId, q.cap.claims.outcomeKey) ==> r.Denied?
    {
      if NamedIn(world.snap, q.effectId, q.cap.claims.outcomeKey) {
        Acceptance.NamedIsDenied(world.snap, bootId, q, Some(params), true);
      }
      ExecuteView(bootId, world, q, params, true);
      hide Valid, Extends, Check, Genuine, RecordOf, Record, Spend;
      var recorded := RecordIntent(q, params, true);
      if recorded.Err? {
        return Denied(recorded.error);
      }
      var ok := DriveProtected(recorded.value, old(world).snap.pending, old(run));
      return if ok then Returned else Raised;
    }

    /** `execute_recoverable`: the adapter is asked to execute, and has to confirm it. */
    method ExecuteRecoverable(q: EffectRequest, params: string) returns (r: Reply)
      requires Valid() && world.pc.Idle? && Genuine(world, q.cap)
      modifies this`run, this`world, store, journal, adapter
      ensures Valid() && world.pc.Idle? && Extends(run, old(run))
      ensures ExecutedFrom(bootId, old(world), q, params, false, r, world)
      ensures NamedIn(old(world.snap), q.effectId, "") ==> r.Denied?
    {
      if NamedIn(world.snap, q.effectId, "") {
        Acceptance.NamedIsDenied(world.snap, bootId, q, Some(params), false);
      }
      ExecuteView(bootId, world, q, params, false);
      hide Valid, Extends, Check, Genuine, RecordOf, Record, Spend;
      var recorded := RecordIntent(q, params, false);
      if recorded.Err? {
        return Denied(recorded.error);
      }
      var ok := DriveRecoverable(recorded.value, old(world).snap.pending, old(run));
      return if ok then Returned else Raised;
    }

    /**
     `execute`: the capability is spent before the executor is called, which happens exactly when it is not denied.
     */
    method Execute(q: EffectRequest, given: Option<string>) returns (denied: Option<Denied>)
      requires Valid() && world.pc.Idle? && Genuine(world, q.cap)
      modifies this`run, this`world, store
      ensures Valid() && world.pc.Idle? && Extends(run, old(run))
      ensures denied == Check(old(world.snap), bootId, q, given, false)
      ensures world == if denied.Some? then old(world)
                       else old(world).(snap := Spend(old(world.snap), q, old(world.snap.pending)))
      ensures NamedIn(old(world.snap), q.effectId, "") ==> denied.Some?
    {
      if NamedIn(world.snap, q.effectId, "") {
        Acceptance.NamedIsDenied(world.snap, bootId, q, given, false);
      }
      hide NamedIn;
      hide At, Next, ValidateCommon, Admit, Genuine;
      denied := ValidateCommon(q, given, false);
      if denied.Some? {
        return;
      }
      var s := Read();
      denied := Admit(s, bootId, q, "");
      if denied.Some? {
        return;
      }
      Write(Spend(s, q, s.pending));
      EnterExecute(q, given, run);
    }

    ghost method EnterExecute(q: EffectRequest, given: Option<string>, base: Run)
      requires At(config, run) == Some(world) && world.pc.Idle? && Genuine(world, q.cap) && Extends(run, base)
      requires Check(world.snap, bootId, q, given, false).None?
      modifies this`run, this`world
      ensures At(config, run) == Some(world) && Extends(run, base)
      ensures world == old(world).(snap := Spend(old(world.snap), q, old(world.snap.pending)))
    {
      NextExecutes(config, world, bootId, q, given);
      hide Next, Check, Spend;
      Step(Action.Execute(bootId, q, given), base);
      Step(Tick, base);
    }

    // ----- Reconciliation -----

    /** The loop journals an intent whose PREPARED line is missing, and reads the journal again. */
    method PrepareInLoop(ghost records0: Records, it: Intent, rest: seq<Intent>, provided: map<string, string>,
                         ghost base: Run)
      returns (records: Option<Records>)
      requires Valid() && Extends(run, base) && world.pc == AppendPrepared(Loop(records0, rest, provided), it)
      modifies this`run, this`world, journal
      ensures Valid() && Extends(run, base) && world.snap == old(world.snap)
      ensures world.log == old(world.log) + [RecordOf(J.Prepared, it)] && records == J.Fold(world.log)
      ensures world.pc == if records.Some? then Examine(Loop(records.value, rest, provided), it) else Idle
    {
      hide At, TickIntent, RecordOf, J.Fold;
      TicksLoop(config, world);
      journal.Append(RecordOf(J.Prepared, it));
      var order;
      records, order := journal.ValidatedState();
      Advance(base);
    }

    /** The read-only checks of one iteration. */
    method ExamineIntent(records: Records, it: Intent, rest: seq<Intent>, provided: map<string, string>,
                         ghost base: Run)
      returns (course: Course)
      requires Valid() && Extends(run, base) && world.pc == Examine(Loop(records, rest, provided), it)
      requires it.key in records
      modifies this`run, this`world
      ensures Valid() && Extends(run, base) && LocalsKept()
      ensures world.pc == match course
                          case Stop => Idle
                          case RefuseIt => AppendRefused(Loop(records, rest, provided), it)
                          case CommitIt => AskRefused(Loop(records, rest, provided), it)
                          case RecoverIt => AskStatus(Loop(records, rest, provided), it)
      ensures course != Stop ==> (course == RefuseIt <==> !C.Clear(world.snap, it))
      ensures Matching(records[it.key], it) && WellNamed(it) && !C.Clear(world.snap, it) ==> course == RefuseIt
    {
      hide At, TickIntent, Matching, IsRefused, CanonicalOutcomeKey;
      TicksExamine(config, world);
      var s := Read();
      var refused := IsRefused(s, it.effectId, it.outcomeKey);
      Advance(base);
      if !Matching(records[it.key], it) {
        return Stop;
      }
      if it.outcomeKey != "" && !CanonicalOutcomeKey(it.outcomeKey) {
        return Stop;
      }
      if refused || it.epoch != s.epoch {
        return RefuseIt;
      }
      if it.key !in provided || provided[it.key] != it.paramsDigest {
        return Stop;
      }
      return if it.outcomeKey != "" then CommitIt else RecoverIt;
    }

    /** The REFUSED line is written whatever the journal says of the intent already. */
    method RefuseInLoop(ghost flow: Flow, it: Intent, ghost base: Run)
      requires Valid() && Extends(run, base) && world.pc == AppendRefused(flow, it)
      modifies this`run, this`world, store, journal
      ensures Valid() && Extends(run, base) && world.pc == Resume(flow)
      ensures world.snap == Settle(old(world.snap), it.key)
      ensures world.log == old(world.log) + [RecordOf(J.Refused, it)]
    {
      RefuseLine(flow, it, base);
      hide Valid, Extends, Settle, RecordOf;
      Drop(flow, it, base);
    }

    method RefuseLine(ghost flow: Flow, it: Intent, ghost base: Run)
      requires Valid() && Extends(run, base) && world.pc == AppendRefused(flow, it)
      modifies this`run, this`world, journal
      ensures Valid() && Extends(run, base) && world.pc == DropRefused(flow, it) && world.snap == old(world.snap)
      ensures world.log == old(world.log) + [RecordOf(J.Refused, it)]
    {
      hide At, TickIntent, RecordOf;
      TicksLoop(config, world);
      journal.Append(RecordOf(J.Refused, it));
      Advance(base);
    }

    /** The COMMITTED line is written only where it is missing. */
    method CommitInLoop(ghost records0: Records, it: Intent, rest: seq<Intent>, provided: map<string, string>,
                        ghost base: Run)
      returns (records: Option<Records>)
      requires Valid() && Extends(run, base) && world.pc == AppendCommitted(Loop(records0, rest, provided), it)
      modifies this`run, this`world, journal
      ensures Valid() && Extends(run, base) && world.snap == old(world.snap)
      ensures CommittedLine(old(world.log), it, world.log) && (records.Some? ==> records == J.Fold(world.log))
      ensures world.pc == if records.Some? then DropCommitted(Loop(records.value, rest, provided), it) else Idle
    {
      hide At, TickIntent, RecordOf, J.Fold;
      TicksCommitted(config, world);
      var order;
      records, order := journal.ValidatedState();
      if records.Some? && !(it.key in records.value && records.value[it.key].status.Committed?) {
        journal.Append(RecordOf(J.Committed, it));
        records, order := journal.ValidatedState();
      }
      Advance(base);
    }

    /** First half of an iteration: the intent's PREPARED line is there and `records` knows it. */
    method AnnounceNext(records: Records, it: Intent, rest: seq<Intent>, provided: map<string, string>, ghost base: Run)
      returns (known: Option<Records>)
      requires Valid() && Extends(run, base)
      requires world.pc == NextIntent(Loop(records, [it] + rest, provided)) && world.snap.pending == [it] + rest
      modifies this`run, this`world, journal
      ensures Valid() && Extends(run, base) && world.snap == old(world.snap)
      ensures world.pc == if known.Some? then Examine(Loop(known.value, rest, provided), it) else Idle
      ensures known.Some? ==> it.key in known.value
      ensures old(world.log) <= world.log
      ensures Ready(old(world.log), records, it, rest) ==>
                known.Some? && Announced(old(world.log), world.log, known.value, it, rest)
    {
      TakeFirst(records, it, rest, provided, base);
      hide Valid, Extends, RecordOf, J.Fold, Ready, Announced, At;
      if it.key in records {
        if Ready(world.log, records, it, rest) {
          AnnouncedAlready(world.log, records, it, rest);
        }
        return Some(records);
      }
      ghost var w := world;
      ValidAt();
      if Ready(w.log, records, it, rest) {
        AnnouncesNew(config, run, w, it, rest, records);
      }
      known := PrepareInLoop(records, it, rest, provided, base);
      if known.Some? {
        FoldKnowsLast(w.log, RecordOf(J.Prepared, it));
        RecordKey(J.Prepared, it);
      }
    }

    lemma ValidAt()
      requires Valid()
      ensures At(config, run) == Some(world)
    {}

    ghost method TakeFirst(records: Records, it: Intent, rest: seq<Intent>, provided: map<string, string>, base: Run)
      requires Valid() && Extends(run, base) && world.pc == NextIntent(Loop(records, [it] + rest, provided))
      modifies this`run, this`world
      ensures Valid() && Extends(run, base) && LocalsKept()
      ensures world.pc == var flow := Loop(records, rest, provided);
                          if it.key in records then Examine(flow, it) else AppendPrepared(flow, it)
    {
      TicksNext(config, world, it, rest);
      hide At, TickIntent;
      Advance(base);
    }

    method CallAdapter(ghost flow: Flow, it: Intent, protected: bool, ghost base: Run) returns (ok: bool)
      requires Valid() && Extends(run, base)
      requires world.pc == if protected then AskRefused(flow, it) else AskStatus(flow, it)
      modifies this`run, this`world, adapter
      ensures Valid() && Extends(run, base) && LocalsKept()
      ensures world.pc == if ok then AppendCommitted(flow, it) else Idle
    {
      hide Valid, Extends;
      if protected {
        ok := ProtectedCommit(flow, it, base);
      } else {
        ok := Recover(flow, it, base);
      }
    }

    /** The last check before a committed intent is dropped can never fire: the lock keeps what was examined. */
    lemma FinalGuard(flow: Flow, it: Intent)
      requires Valid() && world.pc == DropCommitted(flow, it)
      ensures !IsRefused(world.snap, it.effectId, it.outcomeKey) && it.epoch == world.snap.epoch
    {
      C.ReachableInv(config, run);
    }

    /** Second half of an iteration: refuse the intent, or have it committed outside, then drop it. */
    method SettleNext(records: Records, it: Intent, rest: seq<Intent>, provided: map<string, string>,
                      ghost was: seq<J.Record>, ghost base: Run) returns (next: Option<Records>)
      requires Valid() && Extends(run, base) && it.key in records
      requires world.pc == Examine(Loop(records, rest, provided), it) && world.snap.pending == [it] + rest
      modifies this`run, this`world, store, journal, adapter
      ensures Valid() && Extends(run, base)
      ensures world.pc == if next.Some? then NextIntent(Loop(next.value, rest, provided)) else Idle
      ensures world.snap == if next.Some? then Settle(old(world.snap), it.key) else old(world.snap)
      ensures old(world.log) <= world.log
      ensures Announced(was, old(world.log), records, it, rest) ==>
                Outcome(old(world.snap), was, it, rest, world.log, next)
    {
      ghost var w, flow := world, Loop(records, rest, provided);
      ValidAt();
      DistinctInRun(config, run);
      ghost var before := run;
      if Announced(was, w.log, records, it, rest) {
        UnsettleableIsRefused(config, run, w, was, records, it, rest);
      }
      hide Valid, Extends, Settle, RecordOf, J.Fold, Announced;
      hide Outcome, At, C.Clear, DistinctKeys, Settleable, Matching;
      var course := ExamineIntent(records, it, rest, provided, base);
      if course == Stop {
        if Announced(was, w.log, records, it, rest) {
          NothingWritten(w.snap, was, w.log, records, it, rest);
        }
        return None;
      }
      if course == RefuseIt {
        if Announced(was, w.log, records, it, rest) {
          RefusingCloses(config, before, w, was, records, it, rest);
        }
        RefuseInLoop(flow, it, base);
        return Some(records);
      }
      next := CommitNext(records, it, rest, provided, course == CommitIt, was, base);
    }

    /** The adapter's part of an iteration, and what follows it. */
    method CommitNext(records: Records, it: Intent, rest: seq<Intent>, provided: map<string, string>, protected: bool,
                      ghost was: seq<J.Record>, ghost base: Run) returns (next: Option<Records>)
      requires Valid() && Extends(run, base) && world.snap.pending == [it] + rest && C.Clear(world.snap, it)
      requires world.pc == if protected then AskRefused(Loop(records, rest, provided), it)
                           else AskStatus(Loop(records, rest, provided), it)
      modifies this`run, this`world, store, journal, adapter
      ensures Valid() && Extends(run, base)
      ensures world.pc == if next.Some? then NextIntent(Loop(next.value, rest, provided)) else Idle
      ensures world.snap == if next.Some? then Settle(old(world.snap), it.key) else old(world.snap)
      ensures old(world.log) <= world.log
      ensures Announced(was, old(world.log), records, it, rest) ==>
                Outcome(old(world.snap), was, it, rest, world.log, next)
    {
      ghost var w, flow := world, Loop(records, rest, provided);
      ValidAt();
      if Announced(was, w.log, records, it, rest) {
        ClearIsSettleable(config, run, w, was, records, it, rest);
        NothingWritten(w.snap, was, w.log, records, it, rest);
      }
      hide Valid, Extends, Settle, J.Fold, Announced, Outcome, At, C.Clear, Settleable;
      var ok := CallAdapter(flow, it, protected, base);
      if !ok {
        return None;
      }
      next := FinishInLoop(records, it, rest, provided, was, base);
    }

    method FinishInLoop(records: Records, it: Intent, rest: seq<Intent>, provided: map<string, string>,
                        ghost was: seq<J.Record>, ghost base: Run) returns (next: Option<Records>)
      requires Valid() && Extends(run, base) && C.Clear(world.snap, it)
      requires world.pc == AppendCommitted(Loop(records, rest, provided), it) && world.snap.pending == [it] + rest
      modifies this`run, this`world, store, journal
      ensures Valid() && Extends(run, base)
      ensures world.pc == if next.Some? then NextIntent(Loop(next.value, rest, provided)) else Idle
      ensures world.snap == if next.Some? then Settle(old(world.snap), it.key) else old(world.snap)
      ensures old(world.log) <= world.log
      ensures Announced(was, old(world.log), records, it, rest) ==>
                Outcome(old(world.snap), was, it, rest, world.log, next)
    {
      ghost var w, before := world, run;
      ValidAt();
      DistinctInRun(config, run);
      hide Valid, Extends, Settle, RecordOf, J.Fold, Announced, Outcome, At, C.Clear, DistinctKeys, IsRefused;
      next := CommitInLoop(records, it, rest, provided, base);
      if Announced(was, w.log, records, it, rest) {
        CommittingCloses(config, before, w, was, records, it, rest, world.log);
      }
      if next.None? {
        return;
      }
      FinalGuard(Loop(next.value, rest, provided), it);
      var s := Read();
      assert !(IsRefused(s, it.effectId, it.outcomeKey) || it.epoch != s.epoch);
      Drop(Loop(next.value, rest, provided), it, base);
    }

    /** One iteration of the loop. */
    method ReconcileOne(records: Records, it: Intent, rest: seq<Intent>, provided: map<string, string>, ghost base: Run)
      returns (next: Option<Records>)
      requires Valid() && Extends(run, base)
      requires world.pc == NextIntent(Loop(records, [it] + rest, provided)) && world.snap.pending == [it] + rest
      modifies this`run, this`world, store, journal, adapter
      ensures Valid() && Extends(run, base)
      ensures world.pc == if next.Some? then NextIntent(Loop(next.value, rest, provided)) else Idle
      ensures world.snap == if next.Some? then Settle(old(world.snap), it.key) else old(world.snap)
      ensures Settle(old(world.snap), it.key) ==
                old(world.snap).(sequence := old(world.snap.sequence) + 1, pending := rest)
      ensures old(world.log) <= world.log
      ensures Ready(old(world.log), records, it, rest) ==>
                Outcome(old(world.snap), old(world.log), it, rest, world.log, next)
    {
      ValidAt();
      DistinctInRun(config, run);
      SettleFirst(world.snap, it, rest);
      hide Valid, Extends, J.Fold, Announced, Outcome, At, Ready, Settle, DistinctKeys;
      ghost var was := world.log;
      var known := AnnounceNext(records, it, rest, provided, base);
      if known.None? {
        return None;
      }
      next := SettleNext(known.value, it, rest, provided, was, base);
    }

    /** One iteration, seen from the whole pass. */
    method ReconcileNext(m: Records, pending: seq<Intent>, done: nat, provided: map<string, string>,
                         ghost s: Snapshot, ghost log: seq<J.Record>, ghost base: Run) returns (next: Option<Records>)
      requires Valid() && Extends(run, base) && pending == s.pending && done < |pending| && DistinctKeys(pending)
      requires world.pc == NextIntent(Loop(m, pending[done..], provided))
      requires Passed(s, log, world.snap, world.log, m, done)
      modifies this`run, this`world, store, journal, adapter
      ensures Valid() && Extends(run, base)
      ensures world.pc == if next.Some? then NextIntent(Loop(next.value, pending[done + 1..], provided)) else Idle
      ensures next.Some? ==> Passed(s, log, world.snap, world.log, next.value, done + 1)
      ensures next.None? ==> world.snap == AfterPass(s, done) && PassResult(s, log, world.log, done)
    {
      PassedPending(s, log, world.snap, world.log, m, done);
      hide Extends, Valid, J.Fold, Outcome, DistinctKeys, Ready, Passed, PassResult, AfterPass;
      ghost var w := world;
      next := ReconcileOne(m, pending[done], pending[done + 1..], provided, base);
      if next.Some? {
        PassAdvances(s, log, w.snap, w.log, m, done, world.snap, world.log, next.value);
      } else {
        PassFails(s, log, w.snap, w.log, m, done, world.log);
      }
    }

    /** The loop over the pending intents. */
    method ReconcileAll(records: Records, pending: seq<Intent>, provided: map<string, string>,
                        ghost s: Snapshot, ghost log: seq<J.Record>, ghost base: Run) returns (done: nat, ok: bool)
      requires Valid() && Extends(run, base) && pending == s.pending && DistinctKeys(pending)
      requires world.pc == NextIntent(Loop(records, pending, provided))
      requires Passed(s, log, world.snap, world.log, records, 0)
      modifies this`run, this`world, store, journal, adapter
      ensures Valid() && Extends(run, base) && world.pc.Idle?
      ensures done <= |pending| && (ok ==> done == |pending|) && world.snap == AfterPass(s, done)
      ensures PassResult(s, log, world.log, done)
    {
      hide Valid, Extends, DistinctKeys, Passed, AfterPass, PassResult;
      var m := records;
      done := 0;
      assert pending[0..] == pending;
      while done < |pending|
        invariant Valid() && Extends(run, base) && done <= |pending|
        invariant world.pc == NextIntent(Loop(m, pending[done..], provided))
        invariant Passed(s, log, world.snap, world.log, m, done)
      {
        var next := ReconcileNext(m, pending, done, provided, s, log, base);
        if next.None? {
          return done, false;
        }
        m, done := next.value, done + 1;
      }
      PassEnds(s, log, world.snap, world.log, m, done);
      PassedPending(s, log, world.snap, world.log, m, done);
      EndLoop(m, provided, base);
      return done, true;
    }

    /**
     `reconcile_pending`: works through the pending intents in order. `done` intents are finished; `ok` is false
     when an exception stopped the loop there. The journal is acceptable afterwards exactly when it was before
     and every finished intent could be settled; then each of those has exactly one terminal line. For a call that
     nobody disturbs, `Completion.ReconciliationEndsWellExactly` gives the condition as it stands before the call.
     */
    method ReconcilePending(provided: map<string, string>) returns (done: nat, ok: bool)
      requires Valid() && world.pc.Idle?
      modifies this`run, this`world, store, journal, adapter
      ensures Valid() && world.pc.Idle? && Extends(run, old(run))
      ensures done <= |old(world.snap.pending)| && (ok ==> done == |old(world.snap.pending)|)
      ensures world.snap == old(world.snap).(sequence := old(world.snap.sequence) + done,
                                             pending := old(world.snap.pending)[done..])
      ensures J.Acceptable(world.log) <==> SettleableUpTo(old(world.snap), old(world.log), done)
      ensures J.Acceptable(world.log) ==>
                forall j | 0 <= j < done :: OneTerminal(world.log, old(world.snap.pending)[j].key)
    {
      ghost var s, log := world.snap, world.log;
      DistinctInRun(config, run);
      PassStarts(s, log);
      hide Extends, Valid, J.Fold, At, DistinctKeys, SettleableUpTo, J.Acceptable, OneTerminal, Passed;
      var records, pending := BeginLoop(provided);
      if records.None? {
        return 0, false;
      }
      done, ok := ReconcileAll(records.value, pending, provided, s, log, old(run));
    }

    method BeginLoop(provided: map<string, string>) returns (records: Option<Records>, pending: seq<Intent>)
      requires Valid() && world.pc.Idle?
      modifies this`run, this`world
      ensures Valid() && Extends(run, old(run)) && LocalsKept()
      ensures records == J.Fold(world.log) && pending == world.snap.pending
      ensures world.pc == if records.Some? then NextIntent(Loop(records.value, pending, provided)) else Idle
    {
      NextReconciles(config, world, provided);
      hide At, Next, J.Fold;
      var order;
      records, order := journal.ValidatedState();
      var s := Read();
      pending := s.pending;
      Step(Reconcile(provided), run);
    }

    ghost method EndLoop(m: Records, provided: map<string, string>, base: Run)
      requires Valid() && Extends(run, base) && world.pc == NextIntent(Loop(m, [], provided))
      modifies this`run, this`world
      ensures Valid() && Extends(run, base) && LocalsKept() && world.pc.Idle?
    {
      TicksEnd(config, world);
      hide At, TickIntent;
      Advance(base);
    }

    // ----- Issue, refusal and rebinding -----

    method Issue(q: IssueRequest, txid: string) returns (r: Result<Capability, KernelError>)
      requires Valid() && world.pc.Idle?
      modifies this`run, this`world, store
      ensures Valid() && world.pc.Idle? && Extends(run, old(run))
      ensures match Kernel.Issue(old(world.snap), bootId, q, txid)
              case Err(e) => r == Err(e) && world == old(world)
              case Ok(issued) =>
                && r == Ok(issued.1)
                && world == old(world).(snap := issued.0, issued := old(world.issued) + {issued.1})
      ensures r.Ok? ==>
        && A.Says(old(world.snap), bootId, q, txid, r.value.claims)
        && A.Installs(old(world.snap), bootId, q, r.value.claims, world.snap)
      ensures (exists cap :: cap in old(world.issued) && cap.claims.nonce == q.nonce) ==>
        r.Err? && world == old(world)
    {
      IssueView(q, txid);
      hide At, Next, Kernel.Issue, Extends;
      var s := Read();
      var issued := IssueCapability(s, bootId, q, txid);
      if issued.Err? {
        ExtendsSelf(run);
        return Err(issued.error);
      }
      StoreIssued(q, txid, issued.value.0, issued.value.1);
      return Ok(issued.value.1);
    }

    lemma IssueView(q: IssueRequest, txid: string)
      requires At(config, run) == Some(world)
      ensures Kernel.Issue(world.snap, bootId, q, txid).Ok? ==>
        var (t, cap) := Kernel.Issue(world.snap, bootId, q, txid).value;
        A.Says(world.snap, bootId, q, txid, cap.claims) && A.Installs(world.snap, bootId, q, cap.claims, t)
      ensures (exists cap :: cap in world.issued && cap.claims.nonce == q.nonce) ==>
        Kernel.Issue(world.snap, bootId, q, txid).Err?
    {
      hide At, Kernel.Issue, A.Says, A.Installs;
      if Kernel.Issue(world.snap, bootId, q, txid).Ok? {
        A.IssueWrites(world.snap, bootId, q, txid);
      }
      if cap :| cap in world.issued && cap.claims.nonce == q.nonce {
        A.NoncesNeverRepeat(config, run, cap, bootId, q, txid);
      }
    }

    /** The store write that makes an issued capability and its state the current ones. */
    method StoreIssued(q: IssueRequest, txid: string, s: Snapshot, ghost cap: Capability)
      requires Valid() && world.pc.Idle? && Kernel.Issue(world.snap, bootId, q, txid) == Ok((s, cap))
      modifies this`run, this`world, store
      ensures Valid() && Extends(run, old(run))
      ensures world == old(world).(snap := s, issued := old(world.issued) + {cap})
    {
      hide At, Next, Kernel.Issue, Extends, Enabled;
      IssueRaises(world.snap, bootId, q, txid);
      NextIssues(config, world, bootId, q, txid);
      ExtendsSelf(run);
      assert store.Holds(world.snap) && world.snap.sequence <= s.sequence;
      Write(s);
      Step(Action.Issue(bootId, q, txid), run);
    }

    /** `commit`: local publication of a refusal. */
    method CommitRefusal(refusal: R.RefusalIntent) returns (r: Result<(), R.RefusalError>)
      requires Valid() && world.pc.Idle?
      modifies this`run, this`world, store
      ensures Valid() && world.pc.Idle? && Extends(run, old(run))
      ensures match R.Commit(config.creds, old(world.snap), refusal)
              case Err(e) => r == Err(e) && world == old(world)
              case Ok(s) => r == Ok(()) && world == old(world).(snap := s)
      ensures r.Ok? <==> R.Authentic(config.creds, refusal)
                         && (old(world.snap.epoch) < refusal.body.targetEpoch
                             || R.OnRecord(old(world.snap), refusal.body.id, refusal.body.outcomeKey))
      ensures if r.Ok? && old(world.snap.epoch) < refusal.body.targetEpoch
              then R.Publishes(old(world.snap), refusal.body, world.snap) else world.snap == old(world.snap)
    {
      R.CommitsExactly(config.creds, world.snap, refusal);
      hide R.Authentic, R.OnRecord, R.Publishes;
      hide At, Next, R.Verify, R.HasRefusal, R.AppendRefusal;
      var s := Read();
      if !R.Verify(config.creds, refusal) {
        return Err(R.BadAuthentication);
      }
      if refusal.body.targetEpoch <= s.epoch {
        if R.HasRefusal(s, refusal) {
          return Ok(());
        }
        return Err(R.NotNewer);
      }
      AppendRaises(s, refusal);
      NextCommits(config, world, refusal);
      Write(R.AppendRefusal(s, refusal));
      Step(Action.CommitRefusal(refusal), run);
      return Ok(());
    }

    ghost method AdvancePublish(base: Run)
      requires At(config, run) == Some(world) && Publishing(world.pc) && Extends(run, base)
      modifies this`run, this`world
      ensures At(config, run) == Some(world) && world == TickPublish(config, old(world)) && Extends(run, base)
    {
      hide Next, TickPublish;
      AtPublish(config, run, world);
      run := Do(run, Tick);
      world := TickPublish(config, world);
    }

    /** The first two questions to the authority; `None` when its fence is already past the target. */
    method AskBeforeRefusing(refusal: R.RefusalIntent, known: bool, ghost base: Run) returns (refused: Option<bool>)
      requires Valid() && Extends(run, base) && world.pc == PubFence(refusal, known)
      modifies this`run, this`world, adapter
      ensures Valid() && Extends(run, base) && LocalsKept()
      ensures world.pc == match refused
                          case None => Idle
                          case Some(yes) => if yes then PubConfirm(refusal, known) else PubRefuse(refusal, known)
    {
      hide At, TickPublish;
      Interleave(base);
      TicksPublish(config, world);
      var fence := adapter.CurrentFence(refusal.body.outcomeKey);
      AdvancePublish(base);
      if fence > refusal.body.targetEpoch {
        return None;
      }
      Interleave(base);
      TicksPublish(config, world);
      var yes := adapter.IsRefused(refusal.body.outcomeKey);
      AdvancePublish(base);
      return Some(yes);
    }

    /** `refuse_outcome`. */
    method RefuseOutside(refusal: R.RefusalIntent, known: bool, ghost base: Run) returns (ok: bool)
      requires Valid() && Extends(run, base) && world.pc == PubRefuse(refusal, known)
      modifies this`run, this`world, adapter
      ensures Valid() && Extends(run, base) && LocalsKept()
      ensures world.pc == if ok then PubConfirm(refusal, known) else Idle
    {
      hide At, TickPublish, Authority.Serve;
      Interleave(base);
      TicksPublish(config, world);
      var b := refusal.body;
      ok := adapter.Send(Authority.Refuse(b.outcomeKey, b.targetEpoch, b.id));
      AdvancePublish(base);
    }

    /** The last two questions: the refusal is terminal outside and its fence stands at the target. */
    method AskAfterRefusing(refusal: R.RefusalIntent, known: bool, ghost base: Run) returns (ok: bool)
      requires Valid() && Extends(run, base) && world.pc == PubConfirm(refusal, known)
      modifies this`run, this`world, adapter
      ensures Valid() && Extends(run, base) && LocalsKept()
      ensures world.pc == if ok && !known then PubWrite(refusal) else Idle
      ensures ok ==> Fencing.Frozen(world.ledger, refusal.body.outcomeKey, refusal.body.targetEpoch)
    {
      hide At, TickPublish;
      Interleave(base);
      TicksPublish(config, world);
      var yes := adapter.IsRefused(refusal.body.outcomeKey);
      AdvancePublish(base);
      if !yes {
        return false;
      }
      ok := AskFenceAfter(refusal, known, base);
    }

    method AskFenceAfter(refusal: R.RefusalIntent, known: bool, ghost base: Run) returns (ok: bool)
      requires Valid() && Extends(run, base) && world.pc == PubCompare(refusal, known)
      requires refusal.body.outcomeKey in world.ledger.refusals
      modifies this`run, this`world, adapter
      ensures Valid() && Extends(run, base) && LocalsKept()
      ensures world.pc == if ok && !known then PubWrite(refusal) else Idle
      ensures ok ==> Fencing.Frozen(world.ledger, refusal.body.outcomeKey, refusal.body.targetEpoch)
    {
      ghost var early := run;
      ExtendsSelf(run);
      hide At, TickPublish, Extends, Authority.Serve;
      Interleave(run);
      ExtendsTransitive(run, early, base);
      Fencing.LedgerEvolves(config, early, run);
      TicksPublish(config, world);
      var fence := adapter.CurrentFence(refusal.body.outcomeKey);
      AdvancePublish(base);
      return fence == refusal.body.targetEpoch;
    }

    /** The local publication of a refusal the authority already holds. */
    method WriteRefusal(refusal: R.RefusalIntent, ghost base: Run)
      requires Valid() && Extends(run, base) && world.pc == PubWrite(refusal)
      modifies this`run, this`world, store
      ensures Valid() && Extends(run, base)
      ensures world == old(world).(snap := R.AppendRefusal(old(world.snap), refusal), pc := Idle)
    {
      hide At, TickPublish, R.AppendRefusal;
      TicksPublish(config, world);
      var s := Read();
      AppendRaises(s, refusal);
      Write(R.AppendRefusal(s, refusal));
      AdvancePublish(base);
    }

    /** `commit_protected` up to its first question; `None` when it raises before asking. */
    method BeginProtected(refusal: R.RefusalIntent) returns (known: Option<bool>)
      requires Valid() && world.pc.Idle?
      modifies this`run, this`world
      ensures Valid() && Extends(run, old(run)) && LocalsKept()
      ensures known.Some? ==> world.pc == PubFence(refusal, known.value) && (known.value <==> R.HasRefusal(world.snap, refusal))
      ensures known.None? ==> world.pc.Idle?
      ensures known.None? <==>
        || !R.Verify(config.creds, refusal) || refusal.body.outcomeKey == ""
        || (refusal.body.targetEpoch <= world.snap.epoch && !R.HasRefusal(world.snap, refusal))
      ensures known.Some? <==>
        && R.Authentic(config.creds, refusal) && refusal.body.outcomeKey != ""
        && (world.snap.epoch < refusal.body.targetEpoch
            || R.OnRecord(world.snap, refusal.body.id, refusal.body.outcomeKey))
    {
      R.AuthenticExactly(config.creds, refusal);
      R.RecordExactly(world.snap, refusal);
      hide R.Authentic, R.OnRecord, R.Publishes;
      hide At, Next, R.Verify, R.HasRefusal;
      NextPublishes(config, world, refusal);
      var s := Read();
      Step(Action.CommitProtected(refusal), run);
      if !R.Verify(config.creds, refusal) || refusal.body.outcomeKey == "" {
        return None;
      }
      var recorded := R.HasRefusal(s, refusal);
      if refusal.body.targetEpoch <= s.epoch && !recorded {
        return None;
      }
      return Some(recorded);
    }

    /**
     `commit_protected`: first the authority, then the store. A normal return means the refusal is on record
     locally and terminal outside with its fence frozen at the target; an exception leaves the store alone.
     */
    method CommitProtected(refusal: R.RefusalIntent) returns (ok: bool)
      requires Valid() && world.pc.Idle?
      modifies this`run, this`world, store, adapter
      ensures Valid() && world.pc.Idle? && Extends(run, old(run))
      ensures !ok ==> world.snap == old(world.snap)
      ensures ok ==> R.Authentic(config.creds, refusal)
      ensures ok ==>
        && Fencing.Frozen(world.ledger, refusal.body.outcomeKey, refusal.body.targetEpoch)
        && R.HasRefusal(world.snap, refusal)
        && world.snap == if R.HasRefusal(old(world.snap), refusal) then old(world.snap)
                         else R.AppendRefusal(old(world.snap), refusal)
    {
      hide Valid, Extends, R.HasRefusal, R.AppendRefusal, R.Verify, R.Authentic, R.OnRecord;
      Fencing.AppendedIsRecorded(world.snap, refusal);
      var known := BeginProtected(refusal);
      if known.None? {
        return false;
      }
      var refused := AskBeforeRefusing(refusal, known.value, old(run));
      if refused.None? {
        return false;
      }
      if !refused.value {
        var sent := RefuseOutside(refusal, known.value, old(run));
        if !sent {
          return false;
        }
      }
      ok := AskAfterRefusing(refusal, known.value, old(run));
      if ok && !known.value {
        WriteRefusal(refusal, old(run));
      }
    }

    /** `rebind_boot` under this process's boot identity. */
    method RebindBoot()
      requires Valid() && world.pc.Idle?
      modifies this`run, this`world, store
      ensures Valid() && world.pc.Idle? && Extends(run, old(run))
      ensures world == old(world).(snap := old(world.snap).(bootId := bootId))
    {
      hide At, Next;
      NextRebinds(config, world, bootId);
      ghost var s := world.snap;
      var _ := store.RebindBoot(bootId, false);
      assert store.Holds(s.(bootId := bootId));
      Step(Rebind(bootId), run);
    }
  }

  datatype Course = Stop | RefuseIt | CommitIt | RecoverIt

  datatype Reply = Returned | Denied(why: Gate.Denied) | Raised

  /** What an execute call with a recorded intent leaves behind. */
  ghost predicate ExecutedFrom(bootId: string, w: World, q: EffectRequest, params: string, protected: bool, r: Reply,
                               v: World)
  {
    var s := w.snap;
    var it := IntentOf(s, q, params, protected);
    var denied := Check(s, bootId, q, Some(params), protected);
    match r
    case Denied(why) => denied == Some(why) && v.snap == s && v.log == w.log
    case Raised =>
      denied.None? && v.snap == Spend(s, q, s.pending + [it]) && v.log == w.log + [RecordOf(J.Prepared, it)]
    case Returned =>
      && denied.None?
      && v.snap == Spend(s, q, s.pending).(sequence := s.sequence + 2)
      && v.log == w.log + [RecordOf(J.Prepared, it)] + [RecordOf(J.Committed, it)]
  }
}
