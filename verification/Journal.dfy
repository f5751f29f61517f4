/** The append-only effect journal and the fold that decides its validity (effect_journal.py). */
module Journal {
  import opened Base

  /** `Other` stands for any status the journal does not define. */
  datatype Status = Prepared | Committed | Refused | Other

  /** One journal line whose MAC verified: its key, its status and its remaining members. */
  datatype Record = Record(key: string, status: Status, fields: map<string, string>)

  const IMMUTABLE_FIELDS: set<string> :=
    {"capability_txid", "effect_id", "idempotency_key", "effect_class", "params_digest"}

  predicate SameFields(r: Record, previous: Record) {
    forall f | f in IMMUTABLE_FIELDS :: Get(r.fields, f) == Get(previous.fields, f)
  }

  predicate HasFields(r: Record) {
    IMMUTABLE_FIELDS <= r.fields.Keys
  }

  /** The five fields that a terminal line must repeat, and a PREPARED line must have. */
  lemma FieldsExactly(r: Record, previous: Record)
    ensures SameFields(r, previous) <==>
      && Get(r.fields, "capability_txid") == Get(previous.fields, "capability_txid")
      && Get(r.fields, "effect_id") == Get(previous.fields, "effect_id")
      && Get(r.fields, "idempotency_key") == Get(previous.fields, "idempotency_key")
      && Get(r.fields, "effect_class") == Get(previous.fields, "effect_class")
      && Get(r.fields, "params_digest") == Get(previous.fields, "params_digest")
    ensures HasFields(r) <==>
      && "capability_txid" in r.fields && "effect_id" in r.fields && "idempotency_key" in r.fields
      && "effect_class" in r.fields && "params_digest" in r.fields
  {}

  /** The fold's reaction to one record; `None` where it raises. */
  function Advance(state: map<string, Record>, r: Record): Option<map<string, Record>> {
    if r.key == "" || r.status.Other? then None
    else if r.status.Prepared? then
      if r.key in state || !HasFields(r) then None else Some(state[r.key := r])
    else if r.key !in state || !state[r.key].status.Prepared? || !SameFields(r, state[r.key]) then None
    else Some(state[r.key := r])
  }

  function Fold(log: seq<Record>): Option<map<string, Record>> {
    if log == [] then Some(map[])
    else
      match Fold(log[..|log| - 1])
      case None => None
      case Some(state) => Advance(state, log[|log| - 1])
  }

  lemma FoldAppend(log: seq<Record>, r: Record)
    ensures Fold(log + [r]) == match Fold(log) case None => None case Some(state) => Advance(state, r)
  {
    assert (log + [r])[..|log|] == log;
  }

  // ----- What the fold accepts -----

  /** The records of one key, in order. */
  function Projection(log: seq<Record>, key: string): seq<Record> {
    if log == [] then []
    else
      var r := log[|log| - 1];
      Projection(log[..|log| - 1], key) + if r.key == key then [r] else []
  }

  predicate WellFormed(r: Record) {
    r.key != "" && !r.status.Other?
  }

  /** PREPARED with every immutable field, then at most one COMMITTED or REFUSED that repeats them. */
  predicate Lifecycle(p: seq<Record>) {
    || p == []
    || (p[0].status.Prepared? && HasFields(p[0])
        && (|p| == 1
            || (|p| == 2 && (p[1].status.Committed? || p[1].status.Refused?) && SameFields(p[1], p[0]))))
  }

  ghost predicate Acceptable(log: seq<Record>) {
    && (forall i | 0 <= i < |log| :: WellFormed(log[i]))
    && (forall key :: Lifecycle(Projection(log, key)))
  }

  /** The fold maps exactly the keys seen to their last record. */
  ghost predicate Summarises(state: map<string, Record>, log: seq<Record>) {
    forall key :: Get(state, key) == (var p := Projection(log, key); if p == [] then None else Some(p[|p| - 1]))
  }

  lemma ProjectionAppend(log: seq<Record>, r: Record, key: string)
    ensures Projection(log + [r], key) == Projection(log, key) + if r.key == key then [r] else []
  {
    assert (log + [r])[..|log|] == log;
  }

  lemma AdvanceExactly(state: map<string, Record>, log: seq<Record>, r: Record)
    requires Summarises(state, log) && Acceptable(log)
    ensures Advance(state, r).Some? <==> WellFormed(r) && Lifecycle(Projection(log, r.key) + [r])
    ensures Advance(state, r).Some? ==> Advance(state, r).value == state[r.key := r]
  {
    var p := Projection(log, r.key);
    assert Lifecycle(p) && Get(state, r.key) == if p == [] then None else Some(p[|p| - 1]);
  }

  lemma ExtendAcceptable(log: seq<Record>, r: Record)
    ensures Acceptable(log + [r]) <==>
      Acceptable(log) && WellFormed(r) && Lifecycle(Projection(log, r.key) + [r])
  {
    var longer := log + [r];
    if Acceptable(longer) {
      forall i | 0 <= i < |log| ensures WellFormed(log[i]) {
        assert longer[i] == log[i];
      }
      assert WellFormed(longer[|log|]);
      forall key ensures Lifecycle(Projection(log, key)) {
        ProjectionAppend(log, r, key);
        assert Lifecycle(Projection(longer, key));
        LifecyclePrefix(Projection(log, key), r);
      }
      ProjectionAppend(log, r, r.key);
    }
    if Acceptable(log) && WellFormed(r) && Lifecycle(Projection(log, r.key) + [r]) {
      forall key ensures Lifecycle(Projection(longer, key)) {
        ProjectionAppend(log, r, key);
        if key != r.key {
          assert Projection(log, key) + [] == Projection(log, key);
        }
      }
    }
  }

  lemma LifecyclePrefix(p: seq<Record>, r: Record)
    ensures Lifecycle(p + [r]) ==> Lifecycle(p)
    ensures p + [] == p
  {
    if p != [] {
      assert (p + [r])[0] == p[0];
      if |p| == 2 {
        assert |p + [r]| == 3;
      }
    }
  }

  lemma ExtendSummary(state: map<string, Record>, log: seq<Record>, r: Record)
    requires Summarises(state, log)
    ensures Summarises(state[r.key := r], log + [r])
  {
    forall key
      ensures Get(state[r.key := r], key)
        == (var p := Projection(log + [r], key); if p == [] then None else Some(p[|p| - 1]))
    {
      ProjectionAppend(log, r, key);
    }
  }

  /** The fold accepts exactly the acceptable logs and then reports each key's last record. */
  lemma {:induction false} FoldAccepts(log: seq<Record>)
    ensures Fold(log).Some? <==> Acceptable(log)
    ensures Fold(log).Some? ==> Summarises(Fold(log).value, log)
  {
    if log != [] {
      var front, r := log[..|log| - 1], log[|log| - 1];
      assert log == front + [r];
      FoldAccepts(front);
      FoldAppend(front, r);
      ExtendAcceptable(front, r);
      if Fold(front).Some? {
        AdvanceExactly(Fold(front).value, front, r);
        ExtendSummary(Fold(front).value, front, r);
      }
    }
  }

  /** Acceptance is prefix-closed. */
  lemma {:induction false} PrefixAccepted(log: seq<Record>, n: nat)
    requires n <= |log| && Fold(log).Some?
    ensures Fold(log[..n]).Some?
  {
    if n == |log| {
      assert log[..n] == log;
    } else {
      var front := log[..|log| - 1];
      PrefixAccepted(front, n);
      assert front[..n] == log[..n];
    }
  }

  /** A key is open when its only record is PREPARED. */
  predicate Open(log: seq<Record>, key: string) {
    |Projection(log, key)| == 1
  }

  lemma OpenMeansPrepared(log: seq<Record>, key: string)
    requires Fold(log).Some?
    ensures Open(log, key) <==> key in Fold(log).value && Fold(log).value[key].status.Prepared?
  {
    FoldAccepts(log);
    var p := Projection(log, key);
    assert Lifecycle(p) && Get(Fold(log).value, key) == if p == [] then None else Some(p[|p| - 1]);
  }

  class EffectJournal {
    var log: seq<Record>

    constructor ()
      ensures log == []
    {
      log := [];
    }

    method Append(r: Record)
      modifies this
      ensures log == old(log) + [r]
    {
      log := log + [r];
    }

    /** The dictionary and the order in which its keys were inserted. */
    method ValidatedState() returns (state: Option<map<string, Record>>, order: seq<string>)
      ensures state == Fold(log)
      ensures state.Some? ==> order == InsertionOrder(log)
    {
      var m: map<string, Record> := map[];
      order := [];
      for i := 0 to |log|
        invariant Fold(log[..i]) == Some(m) && order == InsertionOrder(log[..i])
      {
        var r := log[i];
        FoldAppend(log[..i], r);
        assert log[..i + 1] == log[..i] + [r];
        var accepted :=
          if r.key == "" || r.status.Other? then false
          else if r.status.Prepared? then r.key !in m && HasFields(r)
          else r.key in m && m[r.key].status.Prepared? && SameFields(r, m[r.key]);
        if !accepted {
          RejectedForGood(log, i + 1);
          return None, [];
        }
        if r.status.Prepared? {
          order := order + [r.key];
        }
        m := m[r.key := r];
      }
      assert log[..|log|] == log;
      return Some(m), order;
    }

    /** The PREPARED lines of exactly the open keys, in the order of the log. */
    method Pending() returns (open: Option<seq<Record>>)
      ensures open.Some? <==> Acceptable(log)
      ensures open.Some? ==> open.value == OpenLines(log, log)
    {
      FoldAccepts(log);
      var state, order := ValidatedState();
      if state == None {
        return None;
      }
      var m := state.value;
      OrderIsKnown(log);
      var found: seq<Record> := [];
      for i := 0 to |order|
        invariant found == StillPrepared(m, order[..i])
      {
        assert order[i] in order && order[..i + 1] == order[..i] + [order[i]];
        if m[order[i]].status.Prepared? {
          found := found + [m[order[i]]];
        }
      }
      assert order[..|order|] == order && log[..|log|] == log;
      PickedInOrder(log, |log|);
      return Some(found);
    }
  }

  /** The keys of a dictionary filled by the fold: each enters with its PREPARED line and keeps its place. */
  function InsertionOrder(log: seq<Record>): seq<string> {
    if log == [] then []
    else
      var r := log[|log| - 1];
      InsertionOrder(log[..|log| - 1]) + if r.status.Prepared? then [r.key] else []
  }

  /** The PREPARED records among the listed keys' records. */
  function StillPrepared(state: map<string, Record>, order: seq<string>): seq<Record> {
    if order == [] then []
    else
      var k := order[|order| - 1];
      StillPrepared(state, order[..|order| - 1])
        + if k in state && state[k].status.Prepared? then [state[k]] else []
  }

  /** The lines of `part` whose key is open in `log`. */
  function OpenLines(part: seq<Record>, log: seq<Record>): seq<Record> {
    if part == [] then []
    else
      var r := part[|part| - 1];
      OpenLines(part[..|part| - 1], log) + if Open(log, r.key) then [r] else []
  }

  lemma {:induction false} OrderIsKnown(log: seq<Record>)
    requires Fold(log).Some?
    ensures forall k | k in InsertionOrder(log) :: k in Fold(log).value
  {
    if log != [] {
      OrderIsKnown(log[..|log| - 1]);
    }
  }

  lemma {:induction false} InProjection(log: seq<Record>, r: Record)
    requires r in log
    ensures r in Projection(log, r.key)
  {
    var front := log[..|log| - 1];
    if log[|log| - 1] != r {
      assert log == front + [log[|log| - 1]];
      InProjection(front, r);
    }
  }

  lemma {:induction false} ProjectionIsIn(log: seq<Record>, key: string, i: nat)
    requires i < |Projection(log, key)|
    ensures Projection(log, key)[i] in log
  {
    var front := log[..|log| - 1];
    if i < |Projection(front, key)| {
      ProjectionIsIn(front, key, i);
      assert Projection(log, key)[i] == Projection(front, key)[i];
    } else {
      assert Projection(log, key)[i] == log[|log| - 1];
    }
  }

  /** What an acceptable key's lines are, given one of them. */
  lemma LifecycleOf(p: seq<Record>, r: Record)
    requires Lifecycle(p) && r in p
    ensures |p| == 1 ==> r.status.Prepared? && r == p[0]
    ensures |p| == 2 ==> p[0].status.Prepared? && !p[1].status.Prepared?
    ensures 1 <= |p| <= 2
  {
    hide HasFields, SameFields;
  }

  /** In an accepted log every PREPARED line is known, and it is its key's record exactly when the key is open. */
  lemma PreparedLine(log: seq<Record>, r: Record)
    requires Fold(log).Some? && r in log
    ensures Open(log, r.key) ==> r.status.Prepared?
    ensures r.status.Prepared? ==>
      && r.key in Fold(log).value
      && (Open(log, r.key) <==> Fold(log).value[r.key].status.Prepared?)
      && (Open(log, r.key) ==> Fold(log).value[r.key] == r)
  {
    FoldAccepts(log);
    InProjection(log, r);
    var p := Projection(log, r.key);
    assert Lifecycle(p) && Get(Fold(log).value, r.key) == if p == [] then None else Some(p[|p| - 1]);
    hide Fold, Projection, Acceptable, Summarises, Lifecycle;
    LifecycleOf(p, r);
  }

  lemma LastOfOrder(log: seq<Record>, n: nat)
    requires 0 < n <= |log|
    ensures InsertionOrder(log[..n]) ==
      InsertionOrder(log[..n - 1]) + if log[n - 1].status.Prepared? then [log[n - 1].key] else []
    ensures OpenLines(log[..n], log) ==
      OpenLines(log[..n - 1], log) + if Open(log, log[n - 1].key) then [log[n - 1]] else []
  {
    assert log[..n][..n - 1] == log[..n - 1];
  }

  lemma PickOneMore(state: map<string, Record>, order: seq<string>, k: string)
    ensures StillPrepared(state, order + [k]) ==
      StillPrepared(state, order) + if k in state && state[k].status.Prepared? then [state[k]] else []
    ensures order + [] == order
  {
    assert (order + [k])[..|order|] == order;
  }

  /** Going through the dictionary in insertion order meets the open lines in the order of the log. */
  lemma {:induction false} PickedInOrder(log: seq<Record>, n: nat)
    requires n <= |log| && Fold(log).Some?
    ensures StillPrepared(Fold(log).value, InsertionOrder(log[..n])) == OpenLines(log[..n], log)
  {
    if n > 0 {
      var r := log[n - 1];
      PickedInOrder(log, n - 1);
      LastOfOrder(log, n);
      PreparedLine(log, r);
      PickOneMore(Fold(log).value, InsertionOrder(log[..n - 1]), r.key);
      hide Fold, Open, StillPrepared, OpenLines, InsertionOrder;
    }
  }

  /** The open lines of an accepted log: one for each open key, its only record. */
  lemma OpenLinesExactly(log: seq<Record>, r: Record)
    requires Fold(log).Some?
    ensures r in OpenLines(log, log) <==> Projection(log, r.key) == [r]
  {
    OpenLinesMembers(log, log, r);
    if r in log {
      InProjection(log, r);
    }
    if Projection(log, r.key) == [r] {
      ProjectionIsIn(log, r.key, 0);
    }
    hide Fold;
  }

  lemma {:induction false} OpenLinesMembers(part: seq<Record>, log: seq<Record>, r: Record)
    ensures r in OpenLines(part, log) <==> r in part && Open(log, r.key)
  {
    if part != [] {
      var front := part[..|part| - 1];
      assert part == front + [part[|part| - 1]];
      OpenLinesMembers(front, log, r);
      hide Open;
    }
  }

  lemma {:induction false} ProjectionKeys(log: seq<Record>, key: string)
    ensures forall i | 0 <= i < |Projection(log, key)| :: Projection(log, key)[i].key == key
  {
    if log != [] {
      ProjectionKeys(log[..|log| - 1], key);
    }
  }

  lemma RejectedForGood(log: seq<Record>, n: nat)
    requires n <= |log| && Fold(log[..n]) == None
    ensures Fold(log) == None
  {
    if Fold(log).Some? {
      PrefixAccepted(log, n);
    }
  }
}
