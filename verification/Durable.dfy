/** The documents the local store keeps: intents, issued commits, refusals and the snapshot that holds them. */
module Durable {
  import opened Model
  import Journal

  /** A durable effect intent. `outcomeKey` is empty when the recoverable path recorded it without one. */
  datatype Intent = Intent(
    key: string, txid: string, effectId: string, outcomeKey: string, idemKey: string,
    effectClass: string, paramsDigest: string, epoch: int)

  /** The journal line for an intent in a given status. */
  function RecordOf(status: Journal.Status, it: Intent): Journal.Record {
    Journal.Record(it.key, status, map[
      "capability_txid" := it.txid,
      "effect_id" := it.effectId,
      "idempotency_key" := it.idemKey,
      "effect_class" := it.effectClass,
      "params_digest" := it.paramsDigest])
  }

  /** The line names the intent's transaction, effect, idempotency key, class and parameters, and nothing else. */
  lemma LineSays(status: Journal.Status, it: Intent)
    ensures var r := RecordOf(status, it);
            && r.key == it.key && r.status == status
            && "capability_txid" in r.fields && r.fields["capability_txid"] == it.txid
            && "effect_id" in r.fields && r.fields["effect_id"] == it.effectId
            && "idempotency_key" in r.fields && r.fields["idempotency_key"] == it.idemKey
            && "effect_class" in r.fields && r.fields["effect_class"] == it.effectClass
            && "params_digest" in r.fields && r.fields["params_digest"] == it.paramsDigest
            && |r.fields| == 5
  {}

  /** The kernel's record of a capability it issued. */
  datatype CommitEntry = CommitEntry(
    txid: string, sequence: int, nonce: string, epoch: int, principal: string, domain: string,
    action: string, effectClass: string, mutation: MutationClass, stateDigest: StateDoc,
    paramsDigest: string, effectId: string, outcomeKey: string)

  datatype RefusalRecord = RefusalRecord(
    id: string, principal: string, effectId: string, txid: string, targetEpoch: int, issuedAt: int,
    outcomeKey: string)

  /** `state_payload`: the canonical authority state plus the refusals recorded so far. */
  datatype Payload = Payload(state: StateDoc, refusals: seq<RefusalRecord>)

  datatype Snapshot = Snapshot(
    epoch: int, sequence: int, nonces: set<string>, consumed: set<string>, commits: seq<CommitEntry>,
    payload: Payload, bootId: string, effects: set<string>, pending: seq<Intent>)

  const EMPTY_SNAPSHOT :=
    Snapshot(0, 0, {}, {}, [], Payload(StateDoc(0, map[], map[]), []), "", {}, [])

  /** What a missing file is read as: epoch and sequence zero, and nothing granted, issued, consumed or pending. */
  lemma FreshStoreIsEmpty()
    ensures var s := EMPTY_SNAPSHOT;
            && s.epoch == 0 && s.sequence == 0 && s.bootId == "" && s.payload.state.epoch == 0
            && s.nonces == {} && s.consumed == {} && s.effects == {} && s.commits == [] && s.pending == []
            && s.payload.state.permissions == map[] && s.payload.state.governance == map[] && s.payload.refusals == []
  {}

  function Keys(pending: seq<Intent>): set<string> {
    set it | it in pending :: it.key
  }

  /** `tuple(x for x in pending if x["key"] != key)`. */
  function Dropped(pending: seq<Intent>, key: string): seq<Intent> {
    if pending == [] then []
    else (if pending[0].key == key then [] else [pending[0]]) + Dropped(pending[1..], key)
  }

  ghost predicate DistinctKeys(pending: seq<Intent>) {
    forall i, j | 0 <= i < j < |pending| :: pending[i].key != pending[j].key
  }

  lemma {:induction false} DroppedMembers(pending: seq<Intent>, key: string)
    ensures forall it :: it in Dropped(pending, key) <==> it in pending && it.key != key
  {
    if pending != [] {
      DroppedMembers(pending[1..], key);
      assert pending == [pending[0]] + pending[1..];
    }
  }

  lemma {:induction false} DroppedNothing(pending: seq<Intent>, key: string)
    requires forall it | it in pending :: it.key != key
    ensures Dropped(pending, key) == pending
  {
    if pending != [] {
      DroppedNothing(pending[1..], key);
    }
  }

  lemma {:induction false} DroppedDistinct(pending: seq<Intent>, key: string)
    requires DistinctKeys(pending)
    ensures DistinctKeys(Dropped(pending, key))
  {
    if pending != [] {
      DroppedDistinct(pending[1..], key);
      DroppedMembers(pending[1..], key);
      var rest := Dropped(pending[1..], key);
      forall j | 0 <= j < |rest| ensures rest[j].key != pending[0].key {
        assert rest[j] in pending[1..];
      }
    }
  }

  /** Dropping the first of several distinct intents leaves exactly the others. */
  lemma DroppedFirst(it: Intent, rest: seq<Intent>)
    requires DistinctKeys([it] + rest)
    ensures Dropped([it] + rest, it.key) == rest && DistinctKeys(rest)
  {
    var all := [it] + rest;
    assert all[1..] == rest;
    forall x | x in rest ensures x.key != it.key {
      var i :| 0 <= i < |rest| && rest[i] == x;
      assert all[0].key != all[i + 1].key;
    }
    forall i, j | 0 <= i < j < |rest| ensures rest[i].key != rest[j].key {
      assert all[i + 1].key != all[j + 1].key;
    }
    DroppedNothing(rest, it.key);
  }

  /** Dropping one of several distinct intents leaves the others in their order. */
  lemma {:induction false} DroppedOne(before: seq<Intent>, it: Intent, after: seq<Intent>)
    requires DistinctKeys(before + [it] + after)
    ensures Dropped(before + [it] + after, it.key) == before + after
  {
    var all := before + [it] + after;
    if before == [] {
      assert all == [it] + after;
      DroppedFirst(it, after);
    } else {
      assert all[0] == before[0] && all[|before|] == it;
      assert all[1..] == before[1..] + [it] + after;
      assert before + after == [before[0]] + (before[1..] + after);
      DroppedOne(before[1..], it, after);
    }
  }

  lemma {:induction false} DroppedLast(before: seq<Intent>, it: Intent)
    requires DistinctKeys(before + [it])
    ensures Dropped(before + [it], it.key) == before
  {
    if before != [] {
      var all := before + [it];
      assert all[0].key != all[|before|].key;
      assert all[1..] == before[1..] + [it];
      DroppedLast(before[1..], it);
    }
  }
}
