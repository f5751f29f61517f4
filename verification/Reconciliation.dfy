/** What one pass of `reconcile_pending` does to the journal, seen through the fold. */
module Reconciliation {
  import opened Base
  import opened Durable
  import opened Gate
  import opened Protocol
  import opened Spoiling
  import J = Journal
  import C = Calls
  import D = Delivery
  import H = JournalHealth

  type Records = map<string, J.Record>

  /** The pass can finish this intent properly: no terminal line yet, or COMMITTED and still clear to go ahead. */
  ghost predicate Settleable(s: Snapshot, state: Records, it: Intent) {
    H.Open(state, it.key) || (state[it.key].status.Committed? && C.Clear(s, it))
  }

  predicate Closed(state: Records, key: string) {
    key in state && !state[key].status.Prepared?
  }

  predicate SameElsewhere(a: Records, b: Records, key: string) {
    forall k | k in a.Keys + b.Keys && k != key :: Get(a, k) == Get(b, k)
  }

  /** The loop's records fit the journal on the intents still to come. */
  ghost predicate Ready(log: seq<J.Record>, records: Records, it: Intent, rest: seq<Intent>) {
    J.Fold(log).Some? && H.Agrees(records, J.Fold(log).value, [it] + rest)
  }

  /** Since the journal stood at `was`, at most the intent's PREPARED line has been added, and it is there now. */
  ghost predicate Announced(was: seq<J.Record>, log: seq<J.Record>, records: Records, it: Intent, rest: seq<Intent>) {
    && J.Fold(was).Some? && Ready(log, records, it, rest)
    && it.key in J.Fold(log).value
    && (if it.key in J.Fold(was).value then J.Fold(log).value[it.key] == J.Fold(was).value[it.key]
        else J.Fold(log).value[it.key].status.Prepared?)
    && SameElsewhere(J.Fold(was).value, J.Fold(log).value, it.key)
  }

  /**
   How the journal stands after the iteration for `it`; `next` is what the loop goes on with, `None` after an
   exception. A settleable intent leaves it acceptable; any other is refused over its terminal line and spoils it.
   */
  ghost predicate Outcome(s: Snapshot, was: seq<J.Record>, it: Intent, rest: seq<Intent>, longer: seq<J.Record>,
                          next: Option<Records>)
  {
    && J.Fold(was).Some?
    && if Settleable(s, J.Fold(was).value, it) then
         && J.Fold(longer).Some?
         && SameElsewhere(J.Fold(was).value, J.Fold(longer).value, it.key)
         && (next.Some? ==>
               Closed(J.Fold(longer).value, it.key) && H.Agrees(next.value, J.Fold(longer).value, rest))
       else next.Some? && J.Fold(longer).None?
  }

  /** How the pass treats the COMMITTED line. */
  ghost predicate CommittedLine(log: seq<J.Record>, it: Intent, longer: seq<J.Record>) {
    match J.Fold(log)
    case None => longer == log
    case Some(state) =>
      longer == if it.key in state && state[it.key].status.Committed? then log else log + [RecordOf(J.Committed, it)]
  }

  /** A line for a pending intent is accepted when the intent is new to the journal, or open and the line terminal. */
  lemma LineAccepted(c: Config, run: Run, w: World, status: J.Status, it: Intent)
    requires At(c, run) == Some(w) && it in w.snap.pending && J.Fold(w.log).Some?
    requires status.Prepared? || status.Committed? || status.Refused?
    requires if status.Prepared? then it.key !in J.Fold(w.log).value
             else it.key in J.Fold(w.log).value && J.Fold(w.log).value[it.key].status.Prepared?
    ensures J.Fold(w.log + [RecordOf(status, it)]) == Some(J.Fold(w.log).value[it.key := RecordOf(status, it)])
    ensures RecordOf(status, it).status == status
  {
    C.ReachableInv(c, run);
    D.ReachableInv(c, run);
    H.ReachableInv(c, run);
    hide J.Fold, D.Once, D.Honest, D.Accounted, D.Announced;
    hide D.Loaded, C.Queued, C.CallOk, H.Sound, C.Backed, D.Restates;
    H.AppendAccepted(w.log, w.ever, status, it);
  }

  /** In a reachable state a pending intent is settleable unless it has a terminal line and is barred. */
  lemma SettleableExactly(c: Config, run: Run, w: World, it: Intent)
    requires At(c, run) == Some(w) && it in w.snap.pending && J.Fold(w.log).Some?
    ensures Settleable(w.snap, J.Fold(w.log).value, it) <==>
      (HasTerminalLine(w.log, it.key) ==> C.Clear(w.snap, it))
    ensures WellNamed(it)
    ensures it.key in J.Fold(w.log).value ==> Matching(J.Fold(w.log).value[it.key], it)
  {
    C.ReachableInv(c, run);
    D.ReachableInv(c, run);
    Spoiling.ReachableInv(c, run);
    if it.key in J.Fold(w.log).value {
      RecordFits(w, it);
    }
    hide J.Fold, D.Inv, C.Queued, C.CallOk, C.Backed, NotYet, Unlogged, C.Clear, Matching;
  }

  lemma RecordFits(w: World, it: Intent)
    requires J.Fold(w.log).Some? && it.key in J.Fold(w.log).value && it.key in w.ever && w.ever[it.key] == it
    requires D.Restates(w.log, w.ever) && Barred(w)
    ensures var r := J.Fold(w.log).value[it.key];
            Matching(r, it) && !r.status.Other? && (r.status.Refused? ==> !C.Clear(w.snap, it))
  {
    H.KnownRestates(w.log, w.ever, it.key);
    H.RestatementFields(J.Fold(w.log).value[it.key].status, J.Prepared, it);
    StatusKnown(w.log, w.ever, it.key);
    D.FoldLast(w.log, it.key);
    hide J.Fold, RecordOf, J.SameFields, C.Clear, D.Logged, D.Restates;
  }

  /** Announcing an intent changes nothing about whether it can be settled. */
  lemma AnnouncedAlike(s: Snapshot, was: seq<J.Record>, log: seq<J.Record>, records: Records, it: Intent,
                       rest: seq<Intent>)
    requires Announced(was, log, records, it, rest)
    ensures Settleable(s, J.Fold(was).value, it) <==> Settleable(s, J.Fold(log).value, it)
    ensures it.key in records && records[it.key] == J.Fold(log).value[it.key]
    ensures H.Agrees(records, J.Fold(log).value, rest)
  {
    assert it in [it] + rest;
    assert Get(records, it.key) == Get(J.Fold(log).value, it.key);
    RestAgrees(records, J.Fold(log).value, it, rest);
    hide J.Fold, C.Clear, SameElsewhere, H.Agrees;
  }

  lemma RestAgrees(records: Records, state: Records, it: Intent, rest: seq<Intent>)
    requires H.Agrees(records, state, [it] + rest)
    ensures H.Agrees(records, state, rest)
  {
    forall x | x in rest ensures Get(records, x.key) == Get(state, x.key) {
      assert x in [it] + rest;
    }
  }

  /** Journaling PREPARED for an intent the journal does not know. */
  lemma AnnouncesNew(c: Config, run: Run, w: World, it: Intent, rest: seq<Intent>, records: Records)
    requires At(c, run) == Some(w) && w.snap.pending == [it] + rest && Ready(w.log, records, it, rest)
    requires it.key !in records
    ensures var longer := w.log + [RecordOf(J.Prepared, it)];
            J.Fold(longer).Some? && Announced(w.log, longer, J.Fold(longer).value, it, rest)
  {
    assert it in w.snap.pending && it in [it] + rest;
    assert Get(records, it.key) == Get(J.Fold(w.log).value, it.key);
    LineAccepted(c, run, w, J.Prepared, it);
    hide J.Fold, RecordOf, At;
  }

  lemma AnnouncedAlready(log: seq<J.Record>, records: Records, it: Intent, rest: seq<Intent>)
    requires Ready(log, records, it, rest) && it.key in records
    ensures Announced(log, log, records, it, rest)
  {
    assert it in [it] + rest;
    assert Get(records, it.key) == Get(J.Fold(log).value, it.key);
    hide J.Fold, H.Agrees;
  }

  lemma RestHasOtherKeys(it: Intent, rest: seq<Intent>)
    requires DistinctKeys([it] + rest)
    ensures forall x | x in rest :: x.key != it.key
  {
    forall x | x in rest ensures x.key != it.key {
      var i :| 0 <= i < |rest| && rest[i] == x;
      assert ([it] + rest)[i + 1] == x && ([it] + rest)[0] == it;
    }
  }

  lemma ClosingLine(s: Snapshot, was: seq<J.Record>, log: seq<J.Record>, longer: seq<J.Record>, r: J.Record,
                    records: Records, it: Intent, rest: seq<Intent>)
    requires Announced(was, log, records, it, rest) && DistinctKeys([it] + rest) && !r.status.Prepared?
    requires J.Fold(longer) == Some(J.Fold(log).value[it.key := r]) && Settleable(s, J.Fold(was).value, it)
    ensures Outcome(s, was, it, rest, longer, Some(records)) && Outcome(s, was, it, rest, longer, J.Fold(longer))
  {
    RestHasOtherKeys(it, rest);
    AnnouncedAlike(s, was, log, records, it, rest);
    hide J.Fold, Settleable;
  }

  /** An exception before any further line. */
  lemma NothingWritten(s: Snapshot, was: seq<J.Record>, log: seq<J.Record>, records: Records, it: Intent,
                       rest: seq<Intent>)
    requires Announced(was, log, records, it, rest) && Settleable(s, J.Fold(was).value, it)
    ensures Outcome(s, was, it, rest, log, None)
  {
    hide J.Fold, Settleable;
  }

  /** An announced intent that cannot be settled passes the matching and naming checks and is refused. */
  lemma UnsettleableIsRefused(c: Config, run: Run, w: World, was: seq<J.Record>, records: Records, it: Intent,
                              rest: seq<Intent>)
    requires At(c, run) == Some(w) && w.snap.pending == [it] + rest && Announced(was, w.log, records, it, rest)
    ensures it.key in records && Matching(records[it.key], it) && WellNamed(it)
    ensures !C.Clear(w.snap, it) || Settleable(w.snap, J.Fold(was).value, it)
  {
    assert it in w.snap.pending;
    SettleableExactly(c, run, w, it);
    AnnouncedAlike(w.snap, was, w.log, records, it, rest);
    hide J.Fold, Settleable, Matching, C.Clear, At;
  }

  /** An announced intent that is clear to go ahead can be settled. */
  lemma ClearIsSettleable(c: Config, run: Run, w: World, was: seq<J.Record>, records: Records, it: Intent,
                          rest: seq<Intent>)
    requires At(c, run) == Some(w) && w.snap.pending == [it] + rest && Announced(was, w.log, records, it, rest)
    requires C.Clear(w.snap, it)
    ensures Settleable(w.snap, J.Fold(was).value, it)
  {
    assert it in w.snap.pending;
    SettleableExactly(c, run, w, it);
    AnnouncedAlike(w.snap, was, w.log, records, it, rest);
    hide J.Fold, Settleable, C.Clear, At;
  }

  /** Refusing an announced intent closes it, or spoils the journal. */
  lemma RefusingCloses(c: Config, run: Run, w: World, was: seq<J.Record>, records: Records, it: Intent,
                       rest: seq<Intent>)
    requires At(c, run) == Some(w) && w.snap.pending == [it] + rest && DistinctKeys([it] + rest)
    requires Announced(was, w.log, records, it, rest) && !C.Clear(w.snap, it)
    ensures Outcome(w.snap, was, it, rest, w.log + [RecordOf(J.Refused, it)], Some(records))
  {
    assert it in w.snap.pending;
    AnnouncedAlike(w.snap, was, w.log, records, it, rest);
    if Settleable(w.snap, J.Fold(was).value, it) {
      LineAccepted(c, run, w, J.Refused, it);
      hide J.Fold, RecordOf, At, C.Clear, H.Agrees, Outcome, DistinctKeys, Announced;
      ClosingLine(w.snap, was, w.log, w.log + [RecordOf(J.Refused, it)], RecordOf(J.Refused, it), records, it, rest);
    } else {
      H.SecondTerminalSpoils(w.log, J.Refused, it);
      hide J.Fold, RecordOf, At, C.Clear, H.Agrees, DistinctKeys;
    }
  }

  /** Committing an announced intent that is clear to go ahead closes it, with or without a new line. */
  lemma CommittingCloses(c: Config, run: Run, w: World, was: seq<J.Record>, records: Records, it: Intent,
                         rest: seq<Intent>,
                         longer: seq<J.Record>)
    requires At(c, run) == Some(w) && w.snap.pending == [it] + rest && DistinctKeys([it] + rest)
    requires Announced(was, w.log, records, it, rest) && C.Clear(w.snap, it) && CommittedLine(w.log, it, longer)
    ensures J.Fold(longer).Some? && Outcome(w.snap, was, it, rest, longer, J.Fold(longer))
  {
    assert it in w.snap.pending;
    SettleableExactly(c, run, w, it);
    AnnouncedAlike(w.snap, was, w.log, records, it, rest);
    if J.Fold(w.log).value[it.key].status.Prepared? {
      LineAccepted(c, run, w, J.Committed, it);
      hide J.Fold, RecordOf, At, C.Clear, H.Agrees, Outcome, DistinctKeys, Announced, Settleable;
      ClosingLine(w.snap, was, w.log, longer, RecordOf(J.Committed, it), records, it, rest);
    } else {
      hide J.Fold, RecordOf, At, C.Clear, DistinctKeys, SameElsewhere;
    }
  }

  // ----- The whole pass -----

  /** The first `n` pending intents can be settled. */
  ghost predicate SettleableUpTo(s: Snapshot, log: seq<J.Record>, n: nat)
    requires n <= |s.pending|
  {
    J.Fold(log).Some? && forall j | 0 <= j < n :: Settleable(s, J.Fold(log).value, s.pending[j])
  }

  /** After `i` intents of a pass that began with `s` and `log`: those are closed, the others stand as they did. */
  ghost predicate OnTrack(s: Snapshot, log: seq<J.Record>, longer: seq<J.Record>, records: Records, i: nat)
    requires i <= |s.pending|
  {
    && J.Fold(log).Some? && J.Fold(longer).Some?
    && H.Agrees(records, J.Fold(longer).value, s.pending[i..])
    && (forall j | i <= j < |s.pending| ::
          Get(J.Fold(longer).value, s.pending[j].key) == Get(J.Fold(log).value, s.pending[j].key))
    && (forall j | 0 <= j < i :: Closed(J.Fold(longer).value, s.pending[j].key))
  }

  lemma OnTrackIsReady(s: Snapshot, log: seq<J.Record>, longer: seq<J.Record>, records: Records, i: nat)
    requires i < |s.pending| && OnTrack(s, log, longer, records, i)
    ensures Ready(longer, records, s.pending[i], s.pending[i + 1..])
    ensures forall t: Snapshot | t.epoch == s.epoch && t.payload == s.payload ::
      Settleable(t, J.Fold(longer).value, s.pending[i]) <==> Settleable(s, J.Fold(log).value, s.pending[i])
  {
    assert [s.pending[i]] + s.pending[i + 1..] == s.pending[i..];
    hide J.Fold, H.Agrees, IsRefused;
    forall t: Snapshot | t.epoch == s.epoch && t.payload == s.payload
      ensures Settleable(t, J.Fold(longer).value, s.pending[i]) <==> Settleable(s, J.Fold(log).value, s.pending[i])
    {
      ClearAlike(s, t, s.pending[i]);
      assert Get(J.Fold(longer).value, s.pending[i].key) == Get(J.Fold(log).value, s.pending[i].key);
    }
  }

  /** A line for one pending key leaves what is known of the others alone. */
  lemma OthersStand(pending: seq<Intent>, i: nat, was: Records, now: Records)
    requires i < |pending| && DistinctKeys(pending) && SameElsewhere(was, now, pending[i].key)
    ensures forall j | 0 <= j < |pending| && j != i :: Get(now, pending[j].key) == Get(was, pending[j].key)
  {
    forall j | 0 <= j < |pending| && j != i ensures Get(now, pending[j].key) == Get(was, pending[j].key) {
      assert pending[j].key != pending[i].key;
    }
  }

  lemma Advances(s: Snapshot, t: Snapshot, log: seq<J.Record>, longer: seq<J.Record>, records: Records, i: nat,
                 longest: seq<J.Record>, more: Records)
    requires i < |s.pending| && DistinctKeys(s.pending) && OnTrack(s, log, longer, records, i)
    requires t.epoch == s.epoch && t.payload == s.payload
    requires Outcome(t, longer, s.pending[i], s.pending[i + 1..], longest, Some(more))
    requires Settleable(s, J.Fold(log).value, s.pending[i])
    ensures OnTrack(s, log, longest, more, i + 1)
  {
    OnTrackIsReady(s, log, longer, records, i);
    OthersStand(s.pending, i, J.Fold(longer).value, J.Fold(longest).value);
    hide J.Fold, H.Agrees, Settleable, DistinctKeys, SameElsewhere;
  }

  /** The journal holds exactly one terminal line for the key, after its PREPARED line. */
  ghost predicate OneTerminal(log: seq<J.Record>, key: string) {
    var p := J.Projection(log, key);
    |p| == 2 && p[0].status.Prepared? && (p[1].status.Committed? || p[1].status.Refused?)
  }

  /** A key that an acceptable journal has closed has exactly one terminal line. */
  lemma ClosedExactly(log: seq<J.Record>, key: string)
    requires J.Fold(log).Some?
    ensures Closed(J.Fold(log).value, key) <==> OneTerminal(log, key)
  {
    J.FoldAccepts(log);
    var p := J.Projection(log, key);
    assert J.Lifecycle(p) && Get(J.Fold(log).value, key) == if p == [] then None else Some(p[|p| - 1]);
  }

  /** The snapshot after `done` intents of a pass. */
  function AfterPass(s: Snapshot, done: nat): Snapshot
    requires done <= |s.pending|
  {
    s.(sequence := s.sequence + done, pending := s.pending[done..])
  }

  /** The store and the journal after `done` intents of a pass that began with `s` and `log`. */
  ghost predicate Passed(s: Snapshot, log: seq<J.Record>, t: Snapshot, longer: seq<J.Record>, records: Records,
                         done: nat)
    requires done <= |s.pending|
  {
    && t == AfterPass(s, done) && J.Fold(log).Some?
    && if SettleableUpTo(s, log, done) then OnTrack(s, log, longer, records, done) else J.Fold(longer).None?
  }

  /**
   The journal after a pass that finished `done` intents: acceptable exactly when it was before and each of
   them could be settled; and then each of them has exactly one terminal line.
   */
  ghost predicate PassResult(s: Snapshot, log: seq<J.Record>, longer: seq<J.Record>, done: nat)
    requires done <= |s.pending|
  {
    && (J.Acceptable(longer) <==> SettleableUpTo(s, log, done))
    && (J.Acceptable(longer) ==> forall j | 0 <= j < done :: OneTerminal(longer, s.pending[j].key))
  }

  lemma PassStarts(s: Snapshot, log: seq<J.Record>)
    ensures J.Fold(log).Some? ==> Passed(s, log, s, log, J.Fold(log).value, 0)
    ensures J.Fold(log).None? ==> PassResult(s, log, log, 0)
  {
    assert s.pending[0..] == s.pending;
    J.FoldAccepts(log);
    hide J.Fold, J.Acceptable;
  }

  lemma PassAdvances(s: Snapshot, log: seq<J.Record>, t: Snapshot, longer: seq<J.Record>, records: Records, done: nat,
                     u: Snapshot, longest: seq<J.Record>, more: Records)
    requires done < |s.pending| && DistinctKeys(s.pending) && Passed(s, log, t, longer, records, done)
    requires longer <= longest
    requires u == t.(sequence := t.sequence + 1, pending := s.pending[done + 1..])
    requires Ready(longer, records, s.pending[done], s.pending[done + 1..]) ==>
               Outcome(t, longer, s.pending[done], s.pending[done + 1..], longest, Some(more))
    ensures Passed(s, log, u, longest, more, done + 1)
  {
    if SettleableUpTo(s, log, done) {
      OnTrackIsReady(s, log, longer, records, done);
      if Settleable(s, J.Fold(log).value, s.pending[done]) {
        Advances(s, t, log, longer, records, done, longest, more);
      }
    } else {
      StaysSpoiled(longer, longest);
    }
    hide OnTrack, Ready, H.Agrees, J.Fold, Settleable, DistinctKeys;
  }

  lemma PassedPending(s: Snapshot, log: seq<J.Record>, t: Snapshot, longer: seq<J.Record>, records: Records, done: nat)
    requires done <= |s.pending| && Passed(s, log, t, longer, records, done)
    ensures t == AfterPass(s, done)
    ensures s.pending[done..] == if done < |s.pending| then [s.pending[done]] + s.pending[done + 1..] else []
  {
    hide OnTrack, SettleableUpTo, J.Fold;
  }

  lemma ClosedAll(s: Snapshot, longer: seq<J.Record>, done: nat)
    requires done <= |s.pending| && J.Fold(longer).Some?
    requires forall j | 0 <= j < done :: Closed(J.Fold(longer).value, s.pending[j].key)
    ensures forall j | 0 <= j < done :: OneTerminal(longer, s.pending[j].key)
  {
    forall j | 0 <= j < done ensures OneTerminal(longer, s.pending[j].key) {
      ClosedExactly(longer, s.pending[j].key);
    }
    hide J.Fold;
  }

  lemma PassEnds(s: Snapshot, log: seq<J.Record>, t: Snapshot, longer: seq<J.Record>, records: Records, done: nat)
    requires done <= |s.pending| && Passed(s, log, t, longer, records, done)
    ensures PassResult(s, log, longer, done)
  {
    J.FoldAccepts(longer);
    if SettleableUpTo(s, log, done) {
      ClosedAll(s, longer, done);
    }
    hide J.Fold, J.Acceptable, OneTerminal, Settleable;
  }

  /** An exception in the iteration after `done` intents leaves the verdict on the journal to those. */
  lemma PassFails(s: Snapshot, log: seq<J.Record>, t: Snapshot, longer: seq<J.Record>, records: Records, done: nat,
                  longest: seq<J.Record>)
    requires done < |s.pending| && DistinctKeys(s.pending) && Passed(s, log, t, longer, records, done)
    requires longer <= longest
    requires Ready(longer, records, s.pending[done], s.pending[done + 1..]) ==>
               Outcome(t, longer, s.pending[done], s.pending[done + 1..], longest, None)
    ensures PassResult(s, log, longest, done)
  {
    J.FoldAccepts(longest);
    if SettleableUpTo(s, log, done) {
      OnTrackIsReady(s, log, longer, records, done);
      OthersStand(s.pending, done, J.Fold(longer).value, J.Fold(longest).value);
      ClosedAll(s, longest, done);
    } else {
      StaysSpoiled(longer, longest);
    }
    hide Ready, H.Agrees, J.Fold, J.Acceptable, Settleable, OneTerminal, DistinctKeys;
  }
}
