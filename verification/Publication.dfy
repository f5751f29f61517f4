/** Who is behind the refusals on record: publication is open exactly to what the named principal has signed. */
module Publication {
  import opened Base
  import opened Durable
  import opened Kernel
  import opened Gate
  import opened Protocol
  import opened Steps
  import A = Authorisation
  import R = Refusal
  import Authority

  /** `commit_protected` goes on to the authority exactly for an authentic refusal of an outcome, newer or on record. */
  lemma PublicationBeginsExactly(c: Config, w: World, r: R.RefusalIntent)
    requires w.pc.Idle?
    ensures var v := Next(c, w, CommitProtected(r));
            var recorded := R.OnRecord(w.snap, r.body.id, r.body.outcomeKey);
            if R.Authentic(c.creds, r) && r.body.outcomeKey != "" && (w.snap.epoch < r.body.targetEpoch || recorded)
            then v == w.(pc := PubFence(r, recorded)) else v == w
  {
    NextPublishes(c, w, r);
    R.AuthenticExactly(c.creds, r);
    R.RecordExactly(w.snap, r);
    hide Next, R.Verify, R.HasRefusal, R.Authentic, R.OnRecord;
  }

  /** `commit` publishes exactly an authentic refusal that is newer. */
  lemma CommitPublishesExactly(c: Config, w: World, r: R.RefusalIntent)
    requires w.pc.Idle?
    ensures var v := Next(c, w, Action.CommitRefusal(r));
            if R.Authentic(c.creds, r) && w.snap.epoch < r.body.targetEpoch
            then v == w.(snap := v.snap) && R.Publishes(w.snap, r.body, v.snap) else v == w
  {
    R.CommitsExactly(c.creds, w.snap, r);
    hide R.Commit, R.Authentic, R.OnRecord, R.Publishes;
  }

  /** Some step of the run submitted this refusal, with the MAC of the principal it names over exactly this. */
  ghost predicate Submitted(c: Config, run: Run, body: RefusalRecord) {
    && run.Do?
    && (|| Submitted(c, run.prior, body)
        || ((run.act.CommitRefusal? || run.act.CommitProtected?)
            && run.act.refusal.body == body && R.Authentic(c.creds, run.act.refusal)))
  }

  /** Every refusal on record, and the one being published, was submitted so. */
  ghost predicate Vouched(c: Config, run: Run, w: World) {
    && (forall x | x in w.snap.payload.refusals :: Submitted(c, run, x))
    && (Publishing(w.pc) ==> Submitted(c, run, w.pc.refusal.body))
  }

  lemma PublishStays(c: Config, w: World)
    requires Publishing(w.pc)
    ensures var v := TickPublish(c, w);
            && (Publishing(v.pc) ==> v.pc.refusal == w.pc.refusal)
            && forall x | x in v.snap.payload.refusals :: x in w.snap.payload.refusals || x == w.pc.refusal.body
  {
    hide Authority.Serve, R.HasRefusal;
  }

  /** A step leaves the refusals alone unless it is a publication. */
  lemma RefusalsFrom(c: Config, w: World, act: Action)
    requires A.Inv(w) && Enabled(w, act) && !act.CommitProtected? && !(act.Tick? && Publishing(w.pc))
    ensures var v := Next(c, w, act);
            && !(Publishing(v.pc) && v.pc != w.pc)
            && (!act.CommitRefusal? ==> v.snap.payload.refusals == w.snap.payload.refusals)
  {
    ControlElsewhere(c, w, act);
    hide Next;
    A.Classify(c, w, act);
    var v := Next(c, w, act);
    if act.Issue? && A.IssueStep(w, v, act.bootId, act.issue, act.txid) {
      A.IssueFacts(w.snap, act.bootId, act.issue, act.txid);
    }
    hide A.IssueStep, Kernel.Issue, A.Inv, A.Ahead;
  }

  lemma ControlElsewhere(c: Config, w: World, act: Action)
    requires Enabled(w, act) && !act.CommitProtected? && !(act.Tick? && Publishing(w.pc))
    ensures Publishing(Next(c, w, act).pc) ==> Next(c, w, act).pc == w.pc
  {
    if act.Tick? && Working(w.pc) {
      NextOnIntent(c, w);
      IntentTickFrame(c, w);
      hide Next, TickIntent;
    } else {
      hide TickIntent, TickPublish, Kernel.Issue, Check, R.Commit, Authority.Serve;
    }
  }

  lemma StepVouches(c: Config, run: Run, w: World)
    requires run.Do? && At(c, run.prior) == Some(w) && Enabled(w, run.act) && Vouched(c, run.prior, w)
    ensures Vouched(c, run, Next(c, w, run.act))
  {
    var act := run.act;
    if act.CommitProtected? {
      PublicationBeginsExactly(c, w, act.refusal);
      hide Next, At, R.Authentic, R.OnRecord;
    } else if act.Tick? && Publishing(w.pc) {
      PublishStays(c, w);
      assert Next(c, w, Tick) == TickPublish(c, w) by { hide TickPublish; }
      hide Next, At, TickPublish, R.Authentic;
    } else {
      A.ReachableInv(c, run.prior);
      RefusalsFrom(c, w, act);
      if act.CommitRefusal? {
        CommitPublishesExactly(c, w, act.refusal);
      }
      hide Next, At, R.Authentic, A.Inv, R.OnRecord;
    }
  }

  lemma {:induction false} ReachableVouched(c: Config, run: Run)
    requires At(c, run).Some?
    ensures Vouched(c, run, At(c, run).value)
  {
    if run.Do? {
      ReachableVouched(c, run.prior);
      hide Next, Vouched;
      StepVouches(c, run, At(c, run.prior).value);
    }
  }

  /** Every refusal on record was submitted under the MAC of the principal it names. */
  lemma RecordedWasSubmitted(c: Config, run: Run, x: RefusalRecord)
    requires At(c, run).Some? && x in At(c, run).value.snap.payload.refusals
    ensures Submitted(c, run, x)
  {
    ReachableVouched(c, run);
    hide At, Submitted;
  }

  /** MACs are unforgeable: what is submitted under a principal's MAC is among what that principal has signed. */
  ghost predicate OnlySigned(c: Config, run: Run, signed: set<RefusalRecord>) {
    run.Do? ==>
      && OnlySigned(c, run.prior, signed)
      && (run.act.CommitRefusal? || run.act.CommitProtected? ==>
            var r := run.act.refusal;
            r.body.principal in c.creds && r.mac.credential == c.creds[r.body.principal] && r.mac.over == r.body ==>
              r.body in signed)
  }

  lemma {:induction false} SubmittedWasSigned(c: Config, run: Run, signed: set<RefusalRecord>, body: RefusalRecord)
    requires OnlySigned(c, run, signed) && Submitted(c, run, body)
    ensures body in signed
  {
    hide Printable, LowerHex;
    if Submitted(c, run.prior, body) {
      SubmittedWasSigned(c, run.prior, signed, body);
    }
  }

  /** Nobody's name is on a recorded refusal that he has not signed. */
  lemma RecordedWasSigned(c: Config, run: Run, signed: set<RefusalRecord>, x: RefusalRecord)
    requires At(c, run).Some? && OnlySigned(c, run, signed) && x in At(c, run).value.snap.payload.refusals
    ensures x in signed && x.principal in c.creds
  {
    RecordedWasSubmitted(c, run, x);
    SubmittedWasSigned(c, run, signed, x);
    SubmittedIsKnown(c, run, x);
    hide At, OnlySigned, Submitted;
  }

  lemma {:induction false} SubmittedIsKnown(c: Config, run: Run, body: RefusalRecord)
    requires Submitted(c, run, body)
    ensures body.principal in c.creds
  {
    hide Printable, LowerHex;
    if Submitted(c, run.prior, body) {
      SubmittedIsKnown(c, run.prior, body);
    }
  }
}
