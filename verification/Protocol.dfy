/**
 The stop protocol across its three durable stores, one durable write or external call at a time.

 A local operation runs under the store lock, so at most one is in progress; `pc` says what it does next
 and carries its local variables. A crash (or any exception) may strike between any two steps. Other
 clients of the external authority act at any moment.
 */
module Protocol {
  import opened Base
  import opened Durable
  import opened Kernel
  import opened Gate
  import Journal
  import Authority
  import Refusal

  datatype Config = Config(kind: Authority.Kind, creds: Refusal.Credentials)

  datatype AdapterStatus = Unknown | Prepared | Committed | Failed | Declined

  /** Who is driving an intent: the call that created it, or one iteration of `reconcile_pending`. */
  datatype Flow =
    | Direct
    | Loop(records: map<string, Journal.Record>, rest: seq<Intent>, provided: map<string, string>)

  datatype Pc =
    | Idle
    | CallExecutor(req: EffectRequest, given: Option<string>)
    | AppendPrepared(flow: Flow, it: Intent)
    | Examine(flow: Flow, it: Intent)
    | AskRefused(flow: Flow, it: Intent)
    | AskFence(flow: Flow, it: Intent)
    | CallCommit(flow: Flow, it: Intent)
    | AskStatus(flow: Flow, it: Intent)
    | CallExecute(flow: Flow, it: Intent)
    | Confirm(flow: Flow, it: Intent)
    | AppendCommitted(flow: Flow, it: Intent)
    | DropCommitted(flow: Flow, it: Intent)
    | AppendRefused(flow: Flow, it: Intent)
    | DropRefused(flow: Flow, it: Intent)
    | NextIntent(flow: Flow)
    | PubFence(refusal: Refusal.RefusalIntent, known: bool)
    | PubAsk(refusal: Refusal.RefusalIntent, known: bool)
    | PubRefuse(refusal: Refusal.RefusalIntent, known: bool)
    | PubConfirm(refusal: Refusal.RefusalIntent, known: bool)
    | PubCompare(refusal: Refusal.RefusalIntent, known: bool)
    | PubWrite(refusal: Refusal.RefusalIntent)

  /**
   `snap`, `log`, `ledger`, `applied` and `statuses` are the durable stores and the two external systems:
   `applied` lists the executions of the recoverable adapter, one entry per execution, and `statuses` what
   it reports for keys it has not applied. The last four fields are history: capabilities issued, intents
   ever recorded, effects this gate caused, and whether a crash fell between a terminal journal line and
   the store write that drops its intent.
   */
  datatype World = World(
    snap: Snapshot, log: seq<Journal.Record>, ledger: Authority.Ledger, applied: seq<string>,
    statuses: map<string, AdapterStatus>, pc: Pc,
    issued: set<Capability>, ever: map<string, Intent>, caused: set<string>, torn: bool)

  datatype Action =
    | Issue(bootId: string, issue: IssueRequest, txid: string)
    | Execute(bootId: string, req: EffectRequest, given: Option<string>)
    | ExecuteProtected(bootId: string, req: EffectRequest, params: string)
    | ExecuteRecoverable(bootId: string, req: EffectRequest, params: string)
    | Reconcile(provided: map<string, string>)
    | CommitRefusal(refusal: Refusal.RefusalIntent)
    | CommitProtected(refusal: Refusal.RefusalIntent)
    | Rebind(bootId: string)
    | Tick                                      // the operation in progress takes its next step
    | Unapplied                                 // `adapter.execute` returns without having applied anything
    | Drift(key: string, status: AdapterStatus) // the adapter's report about an unapplied key changes
    | Foreign(request: Authority.Request)
    | Crash

  /** The adapter reports COMMITTED exactly for the keys it has applied. */
  function Reported(applied: seq<string>, statuses: map<string, AdapterStatus>, key: string): AdapterStatus {
    if key in applied then Committed
    else
      var s := GetOr(statuses, key, Unknown);
      if s.Committed? then Unknown else s
  }

  /** The adapter never denies what it has applied, never claims what it has not, and may report anything else. */
  lemma ReportsExactly(applied: seq<string>, statuses: map<string, AdapterStatus>, key: string)
    ensures Reported(applied, statuses, key).Committed? <==> key in applied
    ensures key !in applied && key in statuses && !statuses[key].Committed? ==>
      Reported(applied, statuses, key) == statuses[key]
    ensures key !in applied && key !in statuses ==> Reported(applied, statuses, key) == Unknown
  {}

  function StatusOf(w: World, key: string): AdapterStatus {
    Reported(w.applied, w.statuses, key)
  }

  /** MACs are unforgeable: a capability that verifies was issued. */
  predicate Genuine(w: World, cap: Capability) {
    cap.mac == Mac(cap.claims) ==> cap in w.issued
  }

  predicate Enabled(w: World, act: Action) {
    match act
    case Issue(_, _, _) => w.pc.Idle?
    case Execute(_, q, _) => w.pc.Idle? && Genuine(w, q.cap)
    case ExecuteProtected(_, q, _) => w.pc.Idle? && Genuine(w, q.cap)
    case ExecuteRecoverable(_, q, _) => w.pc.Idle? && Genuine(w, q.cap)
    case Reconcile(_) => w.pc.Idle?
    case CommitRefusal(_) => w.pc.Idle?
    case CommitProtected(_) => w.pc.Idle?
    case Rebind(_) => w.pc.Idle?
    case Tick => !w.pc.Idle?
    case Unapplied => w.pc.CallExecute?
    case Drift(key, _) => true
    case Foreign(_) => true
    case Crash => true
  }

  /** Record a new intent durably and go on to journal it. */
  function Record(w: World, q: EffectRequest, params: string, protected: bool): World {
    var it := IntentOf(w.snap, q, params, protected);
    w.(snap := Spend(w.snap, q, w.snap.pending + [it]),
       ever := w.ever[it.key := it],
       pc := AppendPrepared(Direct, it))
  }

  /** After an intent is done: the loop goes on, a direct call returns. */
  function Resume(flow: Flow): Pc {
    if flow.Direct? then Idle else NextIntent(flow)
  }

  /** The journal re-read after an append inside the loop; an invalid journal raises. */
  function Reload(flow: Flow, log: seq<Journal.Record>): Option<Flow> {
    match Journal.Fold(log)
    case None => None
    case Some(records) => Some(if flow.Loop? then flow.(records := records) else flow)
  }

  predicate Matching(r: Journal.Record, it: Intent) {
    Journal.SameFields(r, RecordOf(Journal.Prepared, it))
  }

  /** The read-only part of one loop iteration: journal match, refusal and epoch, parameters. */
  function Examined(s: Snapshot, flow: Flow, it: Intent): Pc {
    if flow.Direct? then Idle
    else if it.key !in flow.records || !Matching(flow.records[it.key], it) then Idle
    else if it.outcomeKey != "" && !CanonicalOutcomeKey(it.outcomeKey) then Idle
    else if IsRefused(s, it.effectId, it.outcomeKey) || it.epoch != s.epoch then AppendRefused(flow, it)
    else if it.key !in flow.provided || flow.provided[it.key] != it.paramsDigest then Idle
    else if it.outcomeKey != "" then AskRefused(flow, it)
    else AskStatus(flow, it)
  }

  /** Settle the COMMITTED journal line: a direct call always appends, the loop only when it is missing. */
  function JournalCommitted(w: World, flow: Flow, it: Intent): World {
    var longer := w.log + [RecordOf(Journal.Committed, it)];
    if flow.Direct? then w.(log := longer, pc := DropCommitted(flow, it))
    else
      match Reload(flow, w.log)
      case None => w.(pc := Idle)
      case Some(f) =>
        if f.Loop? && it.key in f.records && f.records[it.key].status.Committed? then w.(pc := DropCommitted(f, it))
        else
          match Reload(flow, longer)
          case None => w.(log := longer, pc := Idle)
          case Some(g) => w.(log := longer, pc := DropCommitted(g, it))
  }

  function Prepare(w: World, flow: Flow, it: Intent): World {
    var longer := w.log + [RecordOf(Journal.Prepared, it)];
    if flow.Direct? then
      w.(log := longer, pc := if it.outcomeKey != "" then AskRefused(flow, it) else CallExecute(flow, it))
    else
      match Reload(flow, longer)
      case None => w.(log := longer, pc := Idle)
      case Some(f) => w.(log := longer, pc := Examine(f, it))
  }

  /** The protected commit at the authority, whose atomic check decides. */
  function CommitOutside(c: Config, w: World, flow: Flow, it: Intent): World {
    var (ledger, r) := Authority.Serve(c.kind, w.ledger, Authority.Commit(it.outcomeKey, it.epoch, it.idemKey));
    w.(ledger := ledger,
       caused := w.caused + (if ledger != w.ledger then {it.key} else {}),
       pc := if r.Ok() then AppendCommitted(flow, it) else Idle)
  }

  function Apply(w: World, flow: Flow, it: Intent): World {
    w.(applied := w.applied + [it.idemKey], caused := w.caused + {it.key}, pc := Confirm(flow, it))
  }

  function AfterStatus(s: AdapterStatus, flow: Flow, it: Intent): Pc {
    if s.Committed? then AppendCommitted(flow, it)
    else if s.Unknown? || s.Prepared? then CallExecute(flow, it)
    else Idle
  }

  /** The store write that drops a committed intent; the loop first repeats its refusal and epoch check. */
  function FinishCommitted(w: World, flow: Flow, it: Intent): World {
    if flow.Loop? && (IsRefused(w.snap, it.effectId, it.outcomeKey) || it.epoch != w.snap.epoch) then w.(pc := Idle)
    else w.(snap := Settle(w.snap, it.key), pc := Resume(flow))
  }

  function TakeNext(flow: Flow): Pc {
    if flow.Direct? || flow.rest == [] then Idle
    else
      var it, f := flow.rest[0], flow.(rest := flow.rest[1..]);
      if it.key in f.records then Examine(f, it) else AppendPrepared(f, it)
  }

  function TickIntent(c: Config, w: World): World
    requires !w.pc.Idle?
  {
    match w.pc
    case AppendPrepared(flow, it) => Prepare(w, flow, it)
    case Examine(flow, it) => w.(pc := Examined(w.snap, flow, it))
    case AskRefused(flow, it) => w.(pc := if it.outcomeKey in w.ledger.refusals then Idle else AskFence(flow, it))
    case AskFence(flow, it) =>
      w.(pc := if w.ledger.Fence(it.outcomeKey) != it.epoch then Idle else CallCommit(flow, it))
    case CallCommit(flow, it) => CommitOutside(c, w, flow, it)
    case AskStatus(flow, it) => w.(pc := AfterStatus(StatusOf(w, it.idemKey), flow, it))
    case CallExecute(flow, it) => Apply(w, flow, it)
    case Confirm(flow, it) =>
      w.(pc := if StatusOf(w, it.idemKey).Committed? then AppendCommitted(flow, it) else Idle)
    case AppendCommitted(flow, it) => JournalCommitted(w, flow, it)
    case DropCommitted(flow, it) => FinishCommitted(w, flow, it)
    case AppendRefused(flow, it) =>
      w.(log := w.log + [RecordOf(Journal.Refused, it)], pc := DropRefused(flow, it))
    case DropRefused(flow, it) => w.(snap := Settle(w.snap, it.key), pc := Resume(flow))
    case NextIntent(flow) => w.(pc := TakeNext(flow))
    case _ => w.(pc := Idle)
  }

  function TickPublish(c: Config, w: World): World
    requires !w.pc.Idle?
  {
    match w.pc
    case PubFence(r, known) =>
      w.(pc := if w.ledger.Fence(r.body.outcomeKey) > r.body.targetEpoch then Idle else PubAsk(r, known))
    case PubAsk(r, known) =>
      w.(pc := if r.body.outcomeKey in w.ledger.refusals then PubConfirm(r, known) else PubRefuse(r, known))
    case PubRefuse(r, known) =>
      var (ledger, response) :=
        Authority.Serve(c.kind, w.ledger, Authority.Refuse(r.body.outcomeKey, r.body.targetEpoch, r.body.id));
      w.(ledger := ledger, pc := if response.Ok() then PubConfirm(r, known) else Idle)
    case PubConfirm(r, known) =>
      w.(pc := if r.body.outcomeKey in w.ledger.refusals then PubCompare(r, known) else Idle)
    case PubCompare(r, known) =>
      w.(pc := if w.ledger.Fence(r.body.outcomeKey) != r.body.targetEpoch || known then Idle else PubWrite(r))
    case PubWrite(r) => w.(snap := Refusal.AppendRefusal(w.snap, r), pc := Idle)
    case _ => w.(pc := Idle)
  }

  /** One step of the operation in progress. `Idle` afterwards means it returned or raised. */
  function TickOf(c: Config, w: World): World
    requires !w.pc.Idle?
  {
    if w.pc.PubFence? || w.pc.PubAsk? || w.pc.PubRefuse? || w.pc.PubConfirm? || w.pc.PubCompare? || w.pc.PubWrite? then
      TickPublish(c, w)
    else if w.pc.CallExecutor? then w.(pc := Idle)
    else TickIntent(c, w)
  }

  /** `commit_protected` up to its first call to the authority. */
  function BeginPublish(c: Config, w: World, r: Refusal.RefusalIntent): World {
    if !Refusal.Verify(c.creds, r) || r.body.outcomeKey == "" then w
    else if r.body.targetEpoch <= w.snap.epoch && !Refusal.HasRefusal(w.snap, r) then w
    else w.(pc := PubFence(r, Refusal.HasRefusal(w.snap, r)))
  }

  ghost function Next(c: Config, w: World, act: Action): World
    requires Enabled(w, act)
  {
    match act
    case Issue(bootId, q, txid) =>
      (match Kernel.Issue(w.snap, bootId, q, txid)
       case Err(_) => w
       case Ok(r) => w.(snap := r.0, issued := w.issued + {r.1}))
    case Execute(bootId, q, given) =>
      if Check(w.snap, bootId, q, given, false).Some? then w
      else w.(snap := Spend(w.snap, q, w.snap.pending), pc := CallExecutor(q, given))
    case ExecuteProtected(bootId, q, params) =>
      if Check(w.snap, bootId, q, Some(params), true).Some? then w else Record(w, q, params, true)
    case ExecuteRecoverable(bootId, q, params) =>
      if Check(w.snap, bootId, q, Some(params), false).Some? then w else Record(w, q, params, false)
    case Reconcile(provided) =>
      (match Journal.Fold(w.log)
       case None => w
       case Some(records) => w.(pc := NextIntent(Loop(records, w.snap.pending, provided))))
    case CommitRefusal(r) =>
      (match Refusal.Commit(c.creds, w.snap, r)
       case Err(_) => w
       case Ok(s) => w.(snap := s))
    case CommitProtected(r) => BeginPublish(c, w, r)
    case Rebind(bootId) => w.(snap := w.snap.(bootId := bootId))
    case Tick => TickOf(c, w)
    case Unapplied => w.(pc := Confirm(w.pc.flow, w.pc.it))
    case Drift(key, status) => w.(statuses := w.statuses[key := status])
    case Foreign(request) => w.(ledger := Authority.Serve(c.kind, w.ledger, request).0)
    case Crash => w.(pc := Idle, torn := w.torn || w.pc.DropCommitted? || w.pc.DropRefused?)
  }

  /** A fresh deployment: any authority state and permissions, nothing issued, consumed or pending yet. */
  ghost predicate Initial(c: Config, w: World) {
    && w.snap.payload.state.epoch == w.snap.epoch
    && w.snap.consumed == {} && w.snap.commits == [] && w.snap.pending == [] && w.snap.payload.refusals == []
    && w.log == [] && w.applied == [] && w.pc.Idle?
    && w.issued == {} && w.ever == map[] && w.caused == {} && !w.torn
    && Authority.Kept(c.kind, w.ledger)
  }

  /** A run, latest action last. */
  datatype Run = Boot(world: World) | Do(prior: Run, act: Action)

  /** The state a run leads to; `None` if some action was not possible. */
  ghost function At(c: Config, run: Run): Option<World> {
    match run
    case Boot(w) => if Initial(c, w) then Some(w) else None
    case Do(prior, act) =>
      match At(c, prior)
      case None => None
      case Some(w) => if Enabled(w, act) then Some(Next(c, w, act)) else None
  }

  lemma AtDo(c: Config, run: Run, act: Action, w: World)
    requires At(c, run) == Some(w) && Enabled(w, act)
    ensures At(c, Do(run, act)) == Some(Next(c, w, act))
  {
    hide Next, Enabled;
  }

  ghost predicate Extends(late: Run, early: Run) {
    late == early || (late.Do? && Extends(late.prior, early))
  }

  lemma NextOnIntent(c: Config, w: World)
    requires !w.pc.Idle? && Working(w.pc)
    ensures Next(c, w, Tick) == TickIntent(c, w)
  {
    hide TickIntent;
  }

  lemma NextRecords(c: Config, w: World, act: Action)
    requires Enabled(w, act) && (act.ExecuteProtected? || act.ExecuteRecoverable?)
    ensures Next(c, w, act) ==
      if Check(w.snap, act.bootId, act.req, Some(act.params), act.ExecuteProtected?).Some? then w
      else Record(w, act.req, act.params, act.ExecuteProtected?)
  {
    hide Check, Record;
  }

  lemma AtTick(c: Config, run: Run, w: World)
    requires At(c, run) == Some(w) && Working(w.pc)
    ensures At(c, Do(run, Tick)) == Some(TickIntent(c, w))
  {
    NextOnIntent(c, w);
    hide Next, TickIntent, At;
    AtDo(c, run, Tick, w);
  }

  lemma AtPublish(c: Config, run: Run, w: World)
    requires At(c, run) == Some(w) && Publishing(w.pc)
    ensures At(c, Do(run, Tick)) == Some(TickPublish(c, w))
  {
    assert Next(c, w, Tick) == TickPublish(c, w) by { hide TickPublish; }
    hide Next, TickPublish, At;
    AtDo(c, run, Tick, w);
  }

  lemma NextReconciles(c: Config, w: World, provided: map<string, string>)
    requires w.pc.Idle?
    ensures Enabled(w, Reconcile(provided))
    ensures Next(c, w, Reconcile(provided)) ==
      match Journal.Fold(w.log)
      case None => w
      case Some(m) => w.(pc := NextIntent(Loop(m, w.snap.pending, provided)))
  {
    hide Journal.Fold;
  }

  lemma ExtendsSelf(run: Run)
    ensures Extends(run, run)
  {}

  lemma {:induction false} ExtendsTransitive(a: Run, b: Run, c: Run)
    requires Extends(a, b) && Extends(b, c)
    ensures Extends(a, c)
  {
    if a != b {
      ExtendsTransitive(a.prior, b, c);
    }
  }

  // ----- What steps leave alone -----

  predicate Publishing(pc: Pc) {
    pc.PubFence? || pc.PubAsk? || pc.PubRefuse? || pc.PubConfirm? || pc.PubCompare? || pc.PubWrite?
  }

  predicate Working(pc: Pc) {
    !pc.Idle? && !pc.CallExecutor? && !Publishing(pc)
  }

  /** A step on an intent changes the snapshot only by settling that intent, and no history but `caused`. */
  ghost predicate IntentFrame(w: World, v: World) {
    && (v.snap == w.snap || ((w.pc.DropCommitted? || w.pc.DropRefused?) && v.snap == Settle(w.snap, w.pc.it.key)))
    && (w.pc.DropCommitted? || w.pc.DropRefused? ==> v.snap == Settle(w.snap, w.pc.it.key) || v.pc.Idle?)
    && (v.ledger == w.ledger || w.pc.CallCommit?)
    && (v.applied == w.applied || (w.pc.CallExecute? && v.applied == w.applied + [w.pc.it.idemKey]))
    && v.issued == w.issued && v.ever == w.ever && v.torn == w.torn && v.statuses == w.statuses
    && !Publishing(v.pc) && !v.pc.CallExecutor?
  }

  lemma PrepareFrame(w: World, flow: Flow, it: Intent)
    requires w.pc == AppendPrepared(flow, it)
    ensures IntentFrame(w, Prepare(w, flow, it))
  {
    hide Settle, Journal.Fold, RecordOf;
  }

  lemma JournalCommittedFrame(w: World, flow: Flow, it: Intent)
    requires w.pc == AppendCommitted(flow, it)
    ensures IntentFrame(w, JournalCommitted(w, flow, it))
  {
    hide Settle, Reload, RecordOf;
  }

  lemma OtherFrame(c: Config, w: World)
    requires w.pc.CallCommit? || w.pc.CallExecute? || w.pc.DropCommitted? || w.pc.Examine? || w.pc.NextIntent?
    ensures IntentFrame(w, TickIntent(c, w))
  {
    hide Settle, Authority.Serve, IsRefused, Matching, CanonicalOutcomeKey, Prepare, JournalCommitted, StatusOf;
  }

  lemma IntentTickFrame(c: Config, w: World)
    requires Working(w.pc)
    ensures IntentFrame(w, TickIntent(c, w))
  {
    hide Prepare, CommitOutside, Apply, JournalCommitted, FinishCommitted;
    hide Examined, TakeNext, Settle, StatusOf, RecordOf;
    match w.pc
    case AppendPrepared(flow, it) => PrepareFrame(w, flow, it);
    case AppendCommitted(flow, it) => JournalCommittedFrame(w, flow, it);
    case Examine(_, _) => OtherFrame(c, w);
    case CallCommit(_, _) => OtherFrame(c, w);
    case CallExecute(_, _) => OtherFrame(c, w);
    case DropCommitted(_, _) => OtherFrame(c, w);
    case NextIntent(_) => OtherFrame(c, w);
    case _ =>
  }

  /** A publication step leaves everything but epoch, payload, sequence and the authority's ledger alone. */
  ghost predicate PublishFrame(w: World, v: World) {
    && v.snap.pending == w.snap.pending && v.snap.consumed == w.snap.consumed
    && v.log == w.log && v.applied == w.applied && v.statuses == w.statuses
    && v.issued == w.issued && v.ever == w.ever && v.caused == w.caused && v.torn == w.torn
    && (v.pc.Idle? || Publishing(v.pc))
  }

  lemma PublishTickFrame(c: Config, w: World)
    requires Publishing(w.pc)
    ensures PublishFrame(w, TickPublish(c, w))
  {
    hide Authority.Serve, Refusal.HasRefusal;
  }

  predicate SameLoop(f: Flow, g: Flow) {
    f.Loop? == g.Loop? && (f.Loop? ==> f.rest == g.rest && f.provided == g.provided)
  }

  /** Where control may go from a step on an intent, besides returning or raising. */
  predicate Successor(s: Snapshot, pc: Pc, next: Pc) {
    match pc
    case AppendPrepared(flow, it) =>
      if flow.Direct? then next == if it.outcomeKey != "" then AskRefused(flow, it) else CallExecute(flow, it)
      else next.Examine? && next.it == it && SameLoop(flow, next.flow)
    case Examine(flow, it) => next == Examined(s, flow, it)
    case AskRefused(flow, it) => next == AskFence(flow, it)
    case AskFence(flow, it) => next == CallCommit(flow, it)
    case CallCommit(flow, it) => next == AppendCommitted(flow, it)
    case AskStatus(flow, it) => next == AppendCommitted(flow, it) || next == CallExecute(flow, it)
    case CallExecute(flow, it) => next == Confirm(flow, it)
    case Confirm(flow, it) => next == AppendCommitted(flow, it)
    case AppendCommitted(flow, it) => next.DropCommitted? && next.it == it && SameLoop(flow, next.flow)
    case DropCommitted(flow, it) => next == Resume(flow)
    case AppendRefused(flow, it) => next == DropRefused(flow, it)
    case DropRefused(flow, it) => next == Resume(flow)
    case NextIntent(flow) => next == TakeNext(flow)
    case _ => false
  }

  lemma PrepareSuccessor(w: World, flow: Flow, it: Intent)
    requires w.pc == AppendPrepared(flow, it)
    ensures var next := Prepare(w, flow, it).pc; next.Idle? || Successor(w.snap, w.pc, next)
  {
    hide Journal.Fold, RecordOf;
  }

  lemma CommittedSuccessor(w: World, flow: Flow, it: Intent)
    requires w.pc == AppendCommitted(flow, it)
    ensures var next := JournalCommitted(w, flow, it).pc; next.Idle? || Successor(w.snap, w.pc, next)
  {
    hide Journal.Fold, RecordOf;
  }

  lemma IntentTickSuccessor(c: Config, w: World)
    requires Working(w.pc)
    ensures var next := TickIntent(c, w).pc; next.Idle? || Successor(w.snap, w.pc, next)
  {
    hide Prepare, JournalCommitted, Examined, TakeNext, Settle, StatusOf, RecordOf, Authority.Serve, IsRefused;
    match w.pc
    case AppendPrepared(flow, it) => PrepareSuccessor(w, flow, it);
    case AppendCommitted(flow, it) => CommittedSuccessor(w, flow, it);
    case _ =>
  }
}
