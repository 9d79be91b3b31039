/** The dispatcher over the mutable outbox table: three phases, each against its specification. */
module OutboxDispatcher {
  import opened Common
  import opened Outbox
  import Safety = OutboxSafety

  /** The rows of a batch that were published and whose outcome was recorded. */
  function PublishedBy(batch: seq<Taken>, results: seq<bool>, failed: set<nat>): nat
    requires |results| == |batch|
  {
    if batch == [] then 0
    else (if results[0] && batch[0].id !in failed then 1 else 0) + PublishedBy(batch[1..], results[1..], failed)
  }

  function PublishedIds(batch: seq<Taken>, results: seq<bool>, failed: set<nat>): set<nat>
    requires |results| == |batch|
  {
    set k | 0 <= k < |batch| && results[k] && batch[k].id !in failed :: batch[k].id
  }

  lemma PublishedIdsSplit(batch: seq<Taken>, results: seq<bool>, failed: set<nat>)
    requires |results| == |batch| && batch != []
    ensures PublishedIds(batch, results, failed)
         == (if results[0] && batch[0].id !in failed then {batch[0].id} else {})
            + PublishedIds(batch[1..], results[1..], failed)
  {
    var tail, outcomes := batch[1..], results[1..];
    forall id | id in PublishedIds(tail, outcomes, failed) ensures id in PublishedIds(batch, results, failed) {
      var k :| 0 <= k < |tail| && outcomes[k] && tail[k].id !in failed && tail[k].id == id;
      assert results[k + 1] && batch[k + 1].id == id;
    }
    forall id | id in PublishedIds(batch, results, failed)
      ensures id in PublishedIds(tail, outcomes, failed) || (id == batch[0].id && results[0] && id !in failed)
    {
      var k :| 0 <= k < |batch| && results[k] && batch[k].id !in failed && batch[k].id == id;
      if k > 0 { assert outcomes[k - 1] && tail[k - 1].id == id; }
    }
  }

  /** The count is the number of records published and recorded. */
  lemma {:induction false} PublishedByCounts(batch: seq<Taken>, results: seq<bool>, failed: set<nat>)
    requires |results| == |batch| && forall j, k :: 0 <= j < k < |batch| ==> batch[j].id < batch[k].id
    ensures PublishedBy(batch, results, failed) == |PublishedIds(batch, results, failed)|
    decreases |batch|
  {
    if batch != [] {
      PublishedIdsSplit(batch, results, failed);
      PublishedByCounts(batch[1..], results[1..], failed);
      assert batch[0].id !in PublishedIds(batch[1..], results[1..], failed);
    }
  }

  class Worker {
    var rows: seq<Row>
    var dispatcher: Dispatcher
    ghost var log: seq<Fact>

    ghost function View(): Db
      reads this
    {
      Db(rows, dispatcher, log)
    }

    constructor ()
      ensures View() == Empty && Safety.Inv(View())
    {
      rows, dispatcher, log := [], Idle, [];
    }

    method Append(message: nat) returns (id: nat)
      modifies this
      ensures View() == Step(old(View()), Appended(message))
      ensures id == |old(rows)|
    {
      id := |rows|;
      rows := rows + [Row(message, Pending, 0, 0)];
    }

    /** The claim updates of the selected rows. */
    method TakeRows(ids: seq<nat>, now: int)
      requires forall k :: 0 <= k < |ids| ==> ids[k] < |rows|
      modifies this`rows, this`log
      ensures View() == TakeAll(old(View()), ids, now)
    {
      for k := 0 to |ids|
        invariant |rows| == |old(rows)|
        invariant TakeAll(View(), ids[k..], now) == TakeAll(old(View()), ids, now)
      {
        assert ids[k..][1..] == ids[k + 1..];
        var r := rows[ids[k]];
        rows := rows[ids[k] := r.(state := Claimed(now + CLAIM_LEASE_SECONDS), attempts := r.attempts + 1)];
        log := log + [Claim(ids[k])];
      }
    }

    /** Phase 1: claim the due rows and commit. */
    method ClaimBatch(now: int) returns (count: nat)
      requires dispatcher.Idle?
      modifies this
      ensures View() == Step(old(View()), Took(now))
      ensures count == if dispatcher.Sending? then |dispatcher.batch| else 0
    {
      var ids := DueIds(rows, now, 0, BATCH);
      count := |ids|;
      if ids == [] { return; }
      var batch := Remember(rows, ids);
      TakeRows(ids, now);
      dispatcher := Sending(batch, []);
    }

    /** Phase 2, one record: `ok` is whether the publication got its receipt. */
    method PublishNext(ok: bool)
      requires dispatcher.Sending? && |dispatcher.results| < |dispatcher.batch|
      modifies this`dispatcher, this`log
      ensures View() == Step(old(View()), Posted(ok))
    {
      var t := dispatcher.batch[|dispatcher.results|];
      dispatcher := Sending(dispatcher.batch, dispatcher.results + [ok]);
      log := log + [if ok then Sent(t.id) else Refused(t.id)];
    }

    /** Phase 3: record the outcomes, each row in a transaction of its own. */
    method RecordOutcomes(failed: set<nat>) returns (published: nat)
      requires dispatcher.Sending? && |dispatcher.results| == |dispatcher.batch|
      modifies this
      ensures View() == Step(old(View()), Recorded(failed))
      ensures published == PublishedBy(old(dispatcher).batch, old(dispatcher).results, failed)
    {
      var batch, results := dispatcher.batch, dispatcher.results;
      published := 0;
      for k := 0 to |batch|
        invariant published + PublishedBy(batch[k..], results[k..], failed) == PublishedBy(batch, results, failed)
        invariant dispatcher == old(dispatcher) && log == old(log)
        invariant RecordAll(rows, batch[k..], results[k..], failed) == RecordAll(old(rows), batch, results, failed)
      {
        assert batch[k..][1..] == batch[k + 1..] && results[k..][1..] == results[k + 1..];
        var t, ok := batch[k], results[k];
        if t.id !in failed && ok { published := published + 1; }
        if t.id !in failed && t.id < |rows| {
          if ok {
            rows := rows[t.id := rows[t.id].(state := Published)];
          } else if t.attempts + 1 >= MAX_ATTEMPTS {
            rows := rows[t.id := rows[t.id].(state := Quarantined)];
          } else {
            rows := rows[t.id := rows[t.id].(state := Pending)];
          }
        }
      }
      dispatcher := Idle;
    }

    /** The redrive of one quarantined row; the bulk script passes no cap. */
    method RedriveMessage(id: nat, cap: Option<nat>) returns (redriven: bool)
      modifies this`rows, this`log
      ensures View() == Step(old(View()), Redrove(id, cap))
      ensures redriven <==> View() != old(View())
    {
      if id >= |rows| || !rows[id].state.Quarantined? || (cap.Some? && rows[id].redrives >= cap.value) { return false; }
      rows := rows[id := rows[id].(state := Pending, attempts := 0, redrives := rows[id].redrives + 1)];
      log := log + [Redriven(id)];
      redriven := true;
    }
  }
}
