/** What single steps of the protocol do, spelled out one program counter at a time. */
module Steps {
  import opened Base
  import opened Durable
  import opened Kernel
  import opened Gate
  import opened Protocol
  import J = Journal
  import Authority
  import R = Refusal
  import C = Calls
  import H = JournalHealth

  lemma DistinctInRun(c: Config, run: Run)
    requires At(c, run).Some?
    ensures DistinctKeys(At(c, run).value.snap.pending)
  {
    C.ReachableInv(c, run);
  }

  lemma NextOutside(c: Config, w: World, q: Authority.Request)
    ensures Enabled(w, Foreign(q)) && Next(c, w, Foreign(q)) == w.(ledger := Authority.Serve(c.kind, w.ledger, q).0)
  {
    hide Authority.Serve;
  }

  lemma NextDrift(c: Config, w: World, key: string, status: AdapterStatus)
    ensures Enabled(w, Drift(key, status)) && Next(c, w, Drift(key, status)) == w.(statuses := w.statuses[key := status])
  {}

  lemma TicksProtected(c: Config, w: World)
    requires C.Fenced(w.pc)
    ensures TickIntent(c, w) ==
      match w.pc
      case AskRefused(flow, it) => w.(pc := if it.outcomeKey in w.ledger.refusals then Idle else AskFence(flow, it))
      case AskFence(flow, it) => w.(pc := if w.ledger.Fence(it.outcomeKey) != it.epoch then Idle else CallCommit(flow, it))
      case _ => CommitOutside(c, w, w.pc.flow, w.pc.it)
  {
    hide CommitOutside, Authority.Serve;
  }

  lemma OutsideCommit(c: Config, w: World, flow: Flow, it: Intent)
    ensures var (l, r) := Authority.Serve(c.kind, w.ledger, Authority.Commit(it.outcomeKey, it.epoch, it.idemKey));
            var v := CommitOutside(c, w, flow, it);
            && v == w.(ledger := l, caused := v.caused, pc := v.pc)
            && v.pc == if r.Ok() then AppendCommitted(flow, it) else Idle
  {
    hide Authority.Serve;
  }

  lemma TicksRecoverable(c: Config, w: World)
    requires C.Unfenced(w.pc)
    ensures TickIntent(c, w) ==
      match w.pc
      case AskStatus(flow, it) => w.(pc := AfterStatus(Reported(w.applied, w.statuses, it.idemKey), flow, it))
      case CallExecute(flow, it) =>
        w.(applied := w.applied + [it.idemKey], caused := w.caused + {it.key}, pc := Confirm(flow, it))
      case _ =>
        w.(pc := if Reported(w.applied, w.statuses, w.pc.it.idemKey).Committed?
                 then AppendCommitted(w.pc.flow, w.pc.it) else Idle)
  {
    hide Reported;
  }

  lemma NextUnapplied(c: Config, w: World)
    requires w.pc.CallExecute?
    ensures Enabled(w, Unapplied) && Next(c, w, Unapplied) == w.(pc := Confirm(w.pc.flow, w.pc.it))
  {}

  lemma TicksDirect(c: Config, w: World)
    requires w.pc.AppendPrepared? || w.pc.AppendCommitted?
    requires w.pc.flow.Direct?
    ensures var it := w.pc.it;
            TickIntent(c, w) ==
              if w.pc.AppendPrepared? then
                w.(log := w.log + [RecordOf(J.Prepared, it)],
                   pc := if it.outcomeKey != "" then AskRefused(Direct, it) else CallExecute(Direct, it))
              else w.(log := w.log + [RecordOf(J.Committed, it)], pc := DropCommitted(Direct, it))
  {
    hide RecordOf;
  }

  lemma TicksDrop(c: Config, w: World)
    requires H.Dropping(w.pc) && C.CallOk(w.snap, w.issued, w.pc)
    ensures TickIntent(c, w) == w.(snap := Settle(w.snap, w.pc.it.key), pc := Resume(w.pc.flow))
  {
    hide Settle, IsRefused;
  }

  lemma NextExecutes(c: Config, w: World, bootId: string, q: EffectRequest, given: Option<string>)
    requires w.pc.Idle? && Genuine(w, q.cap) && Check(w.snap, bootId, q, given, false).None?
    ensures var v := w.(snap := Spend(w.snap, q, w.snap.pending), pc := CallExecutor(q, given));
            && Enabled(w, Action.Execute(bootId, q, given)) && Next(c, w, Action.Execute(bootId, q, given)) == v
            && Enabled(v, Tick) && Next(c, v, Tick) == v.(pc := Idle)
  {
    hide Check, Spend, TickIntent, TickPublish;
  }

  /** What the steps of a direct call add up to. */
  lemma ExecuteView(bootId: string, w: World, q: EffectRequest, params: string, protected: bool)
    requires w.pc.Idle? && Genuine(w, q.cap)
    ensures var it := IntentOf(w.snap, q, params, protected);
            var v := Record(w, q, params, protected);
            && v.snap == Spend(w.snap, q, w.snap.pending + [it]) && v.log == w.log
            && v.pc == AppendPrepared(Direct, it) && v.snap.pending == w.snap.pending + [it]
            && v.snap.(sequence := v.snap.sequence + 1, pending := w.snap.pending)
                 == Spend(w.snap, q, w.snap.pending).(sequence := w.snap.sequence + 2)
            && (Check(w.snap, bootId, q, Some(params), protected).None? ==> (protected <==> it.outcomeKey != ""))
  {
    if Check(w.snap, bootId, q, Some(params), protected).None? {
      C.CheckedIsAdmissible(w, bootId, q, Some(params), protected);
    }
    hide Check, Genuine;
  }

  lemma TicksLoop(c: Config, w: World)
    requires w.pc.AppendRefused? || (w.pc.AppendPrepared? && w.pc.flow.Loop?)
    ensures var (flow, it) := (w.pc.flow, w.pc.it);
            TickIntent(c, w) ==
              if w.pc.AppendRefused? then w.(log := w.log + [RecordOf(J.Refused, it)], pc := DropRefused(flow, it))
              else
                var longer := w.log + [RecordOf(J.Prepared, it)];
                w.(log := longer,
                   pc := match J.Fold(longer)
                         case None => Idle
                         case Some(m) => Examine(Loop(m, flow.rest, flow.provided), it))
  {
    hide RecordOf, J.Fold;
  }

  lemma TicksExamine(c: Config, w: World)
    requires w.pc.Examine?
    ensures TickIntent(c, w) == w.(pc := Examined(w.snap, w.pc.flow, w.pc.it))
  {
    hide Examined;
  }

  lemma TicksCommitted(c: Config, w: World)
    requires w.pc.AppendCommitted? && w.pc.flow.Loop?
    ensures var (flow, it) := (w.pc.flow, w.pc.it);
            TickIntent(c, w) ==
              match J.Fold(w.log)
              case None => w.(pc := Idle)
              case Some(m) =>
                if it.key in m && m[it.key].status.Committed? then
                  w.(pc := DropCommitted(Loop(m, flow.rest, flow.provided), it))
                else
                  var longer := w.log + [RecordOf(J.Committed, it)];
                  w.(log := longer,
                     pc := match J.Fold(longer)
                           case None => Idle
                           case Some(n) => DropCommitted(Loop(n, flow.rest, flow.provided), it))
  {
    hide RecordOf, J.Fold;
  }

  lemma TicksNext(c: Config, w: World, it: Intent, rest: seq<Intent>)
    requires w.pc.NextIntent? && w.pc.flow.Loop? && w.pc.flow.rest == [it] + rest
    ensures var flow := w.pc.flow.(rest := rest);
            TickIntent(c, w) == w.(pc := if it.key in flow.records then Examine(flow, it) else AppendPrepared(flow, it))
  {
    assert ([it] + rest)[1..] == rest;
  }

  lemma FoldKnowsLast(log: seq<J.Record>, r: J.Record)
    requires J.Fold(log + [r]).Some?
    ensures r.key in J.Fold(log + [r]).value
  {
    J.FoldAppend(log, r);
  }

  lemma RecordKey(status: J.Status, it: Intent)
    ensures RecordOf(status, it).key == it.key
  {}

  lemma TicksEnd(c: Config, w: World)
    requires w.pc.NextIntent? && w.pc.flow.Loop? && w.pc.flow.rest == []
    ensures TickIntent(c, w) == w.(pc := Idle)
  {}

  lemma IssueRaises(s: Snapshot, bootId: string, q: IssueRequest, txid: string)
    requires Kernel.Issue(s, bootId, q, txid).Ok?
    ensures Kernel.Issue(s, bootId, q, txid).value.0.sequence == s.sequence + 1
  {
    hide IssueObstacle;
  }

  lemma NextIssues(c: Config, w: World, bootId: string, q: IssueRequest, txid: string)
    requires w.pc.Idle? && Kernel.Issue(w.snap, bootId, q, txid).Ok?
    ensures var r := Kernel.Issue(w.snap, bootId, q, txid).value;
            && Enabled(w, Action.Issue(bootId, q, txid))
            && Next(c, w, Action.Issue(bootId, q, txid)) == w.(snap := r.0, issued := w.issued + {r.1})
  {
    hide Kernel.Issue;
  }

  lemma AppendRaises(s: Snapshot, r: R.RefusalIntent)
    ensures R.AppendRefusal(s, r).sequence == s.sequence + 1
  {
    hide R.HasRefusal;
  }

  lemma NextCommits(c: Config, w: World, r: R.RefusalIntent)
    requires w.pc.Idle? && R.Verify(c.creds, r) && w.snap.epoch < r.body.targetEpoch
    ensures Enabled(w, Action.CommitRefusal(r))
    ensures Next(c, w, Action.CommitRefusal(r)) == w.(snap := R.AppendRefusal(w.snap, r))
  {
    hide R.Verify, R.HasRefusal, R.AppendRefusal;
  }

  lemma TicksPublish(c: Config, w: World)
    requires Publishing(w.pc)
    ensures var (r, b) := (w.pc.refusal, w.pc.refusal.body);
            TickPublish(c, w) ==
              match w.pc
              case PubFence(_, known) => w.(pc := if w.ledger.Fence(b.outcomeKey) > b.targetEpoch then Idle else PubAsk(r, known))
              case PubAsk(_, known) =>
                w.(pc := if b.outcomeKey in w.ledger.refusals then PubConfirm(r, known) else PubRefuse(r, known))
              case PubRefuse(_, known) =>
                var (l, x) := Authority.Serve(c.kind, w.ledger, Authority.Refuse(b.outcomeKey, b.targetEpoch, b.id));
                w.(ledger := l, pc := if x.Ok() then PubConfirm(r, known) else Idle)
              case PubConfirm(_, known) => w.(pc := if b.outcomeKey in w.ledger.refusals then PubCompare(r, known) else Idle)
              case PubCompare(_, known) =>
                w.(pc := if w.ledger.Fence(b.outcomeKey) != b.targetEpoch || known then Idle else PubWrite(r))
              case _ => w.(snap := R.AppendRefusal(w.snap, r), pc := Idle)
  {
    hide Authority.Serve, R.AppendRefusal;
  }

  lemma SettleFirst(s: Snapshot, it: Intent, rest: seq<Intent>)
    requires s.pending == [it] + rest && DistinctKeys(s.pending)
    ensures Settle(s, it.key) == s.(sequence := s.sequence + 1, pending := rest)
  {
    DroppedFirst(it, rest);
  }

  lemma NextPublishes(c: Config, w: World, r: R.RefusalIntent)
    requires w.pc.Idle?
    ensures Enabled(w, Action.CommitProtected(r))
    ensures Next(c, w, Action.CommitProtected(r)) ==
      if !R.Verify(c.creds, r) || r.body.outcomeKey == "" then w
      else if r.body.targetEpoch <= w.snap.epoch && !R.HasRefusal(w.snap, r) then w
      else w.(pc := PubFence(r, R.HasRefusal(w.snap, r)))
  {
    hide R.Verify, R.HasRefusal;
  }

  lemma NextRebinds(c: Config, w: World, bootId: string)
    requires w.pc.Idle?
    ensures Enabled(w, Rebind(bootId)) && Next(c, w, Rebind(bootId)) == w.(snap := w.snap.(bootId := bootId))
  {}

  lemma NextCrashes(c: Config, w: World)
    ensures Enabled(w, Crash) && Next(c, w, Crash) == w.(pc := Idle, torn := w.torn || H.Dropping(w.pc))
  {}
}
