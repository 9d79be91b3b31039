/** What every run of the outbox keeps with a single dispatcher, with and without crashes. */
module OutboxSafety {
  import opened Common
  import opened Outbox

  /** Claims of a record since its last redrive. */
  function ClaimsSinceRedrive(log: seq<Fact>, id: nat): nat {
    if log == [] then 0
    else
      var f := log[|log| - 1];
      var before := ClaimsSinceRedrive(log[..|log| - 1], id);
      if f == Claim(id) then before + 1 else if f == Redriven(id) then 0 else before
  }

  function TimesSent(log: seq<Fact>, id: nat): nat {
    if log == [] then 0
    else TimesSent(log[..|log| - 1], id) + (if log[|log| - 1] == Sent(id) then 1 else 0)
  }

  lemma LogGrows(log: seq<Fact>, f: Fact, id: nat)
    ensures ClaimsSinceRedrive(log + [f], id)
         == if f == Claim(id) then ClaimsSinceRedrive(log, id) + 1
            else if f == Redriven(id) then 0 else ClaimsSinceRedrive(log, id)
    ensures TimesSent(log + [f], id) == TimesSent(log, id) + (if f == Sent(id) then 1 else 0)
  {
    assert (log + [f])[..|log|] == log;
  }

  predicate InBatch(d: Dispatcher, id: nat) {
    d.Sending? && exists k :: 0 <= k < |d.batch| && d.batch[k].id == id
  }

  /* ---------- effects of the batch loops, record by record ---------- */

  function TakenRow(r: Row, now: int): Row {
    r.(state := Claimed(now + CLAIM_LEASE_SECONDS), attempts := r.attempts + 1)
  }

  lemma {:induction false} TakeAllEffect(db: Db, ids: seq<nat>, now: int, id: nat)
    requires forall k :: 0 <= k < |ids| ==> ids[k] < |db.rows|
    requires forall j, k :: 0 <= j < k < |ids| ==> ids[j] < ids[k]
    ensures var db' := TakeAll(db, ids, now);
      && |db'.rows| == |db.rows| && db'.dispatcher == db.dispatcher
      && (id < |db.rows| ==> db'.rows[id] == if id in ids then TakenRow(db.rows[id], now) else db.rows[id])
      && ClaimsSinceRedrive(db'.log, id) == ClaimsSinceRedrive(db.log, id) + (if id in ids then 1 else 0)
      && TimesSent(db'.log, id) == TimesSent(db.log, id)
    decreases |ids|
  {
    if ids != [] {
      LogGrows(db.log, Claim(ids[0]), id);
      TakeAllEffect(TakeOne(db, ids[0], now), ids[1..], now, id);
      assert id in ids <==> id == ids[0] || id in ids[1..];
    }
  }

  lemma {:induction false} RecordAllEffect(rows: seq<Row>, batch: seq<Taken>, results: seq<bool>,
                                           failed: set<nat>, id: nat)
    requires |results| == |batch|
    requires forall j, k :: 0 <= j < k < |batch| ==> batch[j].id < batch[k].id
    ensures var rows' := RecordAll(rows, batch, results, failed);
      && |rows'| == |rows|
      && (id < |rows| ==>
            && (id in failed || !InBatch(Sending(batch, results), id) ==> rows'[id] == rows[id])
            && (forall k :: 0 <= k < |batch| && batch[k].id == id && id !in failed ==>
                  rows'[id] == rows[id].(state := Outcome(batch[k], results[k]))))
    decreases |batch|
  {
    if batch != [] {
      var t := batch[0];
      var mid := if t.id in failed || t.id >= |rows| then rows
                 else rows[t.id := rows[t.id].(state := Outcome(t, results[0]))];
      RecordAllEffect(mid, batch[1..], results[1..], failed, id);
      assert forall k :: 0 < k < |batch| ==> batch[k] == batch[1..][k - 1] && results[k] == results[1..][k - 1];
      if InBatch(Sending(batch[1..], results[1..]), id) {
        var k :| 0 <= k < |batch| - 1 && batch[1..][k].id == id;
        assert batch[k + 1].id == id;
      }
      if id == t.id { assert InBatch(Sending(batch, results), id); }
    }
  }

  /* ---------- the invariant ---------- */

  /** The budget a row has used, and what its state says about it. */
  predicate RowOk(db: Db, id: nat)
    requires id < |db.rows|
  {
    var r := db.rows[id];
    && r.attempts == ClaimsSinceRedrive(db.log, id)
    && (r.state.Pending? ==> r.attempts < MAX_ATTEMPTS)
    && (r.state.Quarantined? ==> r.attempts >= MAX_ATTEMPTS)
    && (r.state.Published? ==> TimesSent(db.log, id) > 0)
  }

  /** What the dispatcher remembers is still true: nobody else touches a claimed row. */
  predicate BatchOk(db: Db) {
    db.dispatcher.Sending? ==>
      var batch, results := db.dispatcher.batch, db.dispatcher.results;
      && |results| <= |batch|
      && (forall j, k :: 0 <= j < k < |batch| ==> batch[j].id < batch[k].id)
      && (forall k :: 0 <= k < |batch| ==>
            batch[k].id < |db.rows| && db.rows[batch[k].id].state.Claimed?
            && db.rows[batch[k].id].attempts == batch[k].attempts + 1)
      && (forall k :: 0 <= k < |results| && results[k] ==> TimesSent(db.log, batch[k].id) > 0)
  }

  predicate Inv(db: Db) {
    BatchOk(db) && forall id :: 0 <= id < |db.rows| ==> RowOk(db, id)
  }

  lemma Phase1Inv(db: Db, now: int)
    requires Inv(db)
    ensures Inv(Phase1(db, now))
  {
    var ids := DueIds(db.rows, now, 0, BATCH);
    if !db.dispatcher.Sending? && ids != [] {
      var db' := Phase1(db, now);
      forall id: nat ensures |db'.rows| == |db.rows| && (id < |db.rows| ==> RowOk(db', id)) {
        TakeAllEffect(db, ids, now, id);
        if id < |db.rows| { assert RowOk(db, id); }
      }
      forall k | 0 <= k < |ids|
        ensures ids[k] < |db'.rows| && db'.rows[ids[k]].state.Claimed?
        ensures db'.rows[ids[k]].attempts == db.rows[ids[k]].attempts + 1
      {
        TakeAllEffect(db, ids, now, ids[k]);
      }
    }
  }

  lemma PublishInv(db: Db, ok: bool)
    requires Inv(db)
    ensures Inv(Publish(db, ok))
  {
    var db' := Publish(db, ok);
    if db' != db {
      var t := db.dispatcher.batch[|db.dispatcher.results|];
      forall id ensures
        && ClaimsSinceRedrive(db'.log, id) == ClaimsSinceRedrive(db.log, id)
        && TimesSent(db'.log, id) == TimesSent(db.log, id) + (if ok && id == t.id then 1 else 0)
      {
        LogGrows(db.log, db'.log[|db.log|], id);
      }
      forall id | 0 <= id < |db'.rows| ensures RowOk(db', id) { assert RowOk(db, id); }
    }
  }

  lemma Phase3Inv(db: Db, failed: set<nat>)
    requires Inv(db)
    ensures Inv(Phase3(db, failed))
  {
    var db' := Phase3(db, failed);
    if db' != db {
      var batch, results := db.dispatcher.batch, db.dispatcher.results;
      forall id: nat ensures |db'.rows| == |db.rows| && (id < |db.rows| ==> RowOk(db', id)) {
        RecordAllEffect(db.rows, batch, results, failed, id);
        if id < |db.rows| {
          assert RowOk(db, id);
          if InBatch(db.dispatcher, id) { var k :| 0 <= k < |batch| && batch[k].id == id; }
        }
      }
    }
  }

  lemma RedriveInv(db: Db, id: nat, cap: Option<nat>)
    requires Inv(db)
    ensures Inv(Redrive(db, id, cap))
  {
    var db' := Redrive(db, id, cap);
    if db' != db {
      forall i ensures
        && ClaimsSinceRedrive(db'.log, i) == (if i == id then 0 else ClaimsSinceRedrive(db.log, i))
        && TimesSent(db'.log, i) == TimesSent(db.log, i)
      {
        LogGrows(db.log, Redriven(id), i);
      }
      forall i | 0 <= i < |db'.rows| ensures RowOk(db', i) { assert RowOk(db, i); }
    }
  }

  /** Facts name records that exist. */
  predicate LogNames(db: Db) {
    && (forall k :: 0 <= k < |db.log| ==> db.log[k].id < |db.rows|)
  }

  lemma {:induction false} UnnamedCountsZero(log: seq<Fact>, id: nat)
    requires forall k :: 0 <= k < |log| ==> log[k].id != id
    ensures ClaimsSinceRedrive(log, id) == 0 && TimesSent(log, id) == 0
  {
    if log != [] { UnnamedCountsZero(log[..|log| - 1], id); }
  }

  lemma {:induction false} TakeAllNames(db: Db, ids: seq<nat>, now: int)
    requires LogNames(db) && forall k :: 0 <= k < |ids| ==> ids[k] < |db.rows|
    ensures LogNames(TakeAll(db, ids, now))
    ensures |TakeAll(db, ids, now).rows| == |db.rows|
    decreases |ids|
  {
    if ids != [] { TakeAllNames(TakeOne(db, ids[0], now), ids[1..], now); }
  }

  lemma AppendInv(db: Db, message: nat)
    requires Inv(db) && LogNames(db)
    ensures Inv(Step(db, Appended(message)))
  {
    var db' := Step(db, Appended(message));
    UnnamedCountsZero(db.log, |db.rows|);
    forall id | 0 <= id < |db'.rows| ensures RowOk(db', id) {
      if id < |db.rows| { assert RowOk(db, id); }
    }
  }

  lemma StepInv(db: Db, e: Event)
    requires Inv(db) && LogNames(db)
    ensures Inv(Step(db, e)) && LogNames(Step(db, e))
  {
    var db' := Step(db, e);
    match e
    case Appended(message) => AppendInv(db, message);
    case Took(now) =>
      Phase1Inv(db, now);
      TakeAllNames(db, DueIds(db.rows, now, 0, BATCH), now);
    case Posted(ok) => PublishInv(db, ok);
    case Recorded(failed) =>
      Phase3Inv(db, failed);
      if db' != db { RecordAllEffect(db.rows, db.dispatcher.batch, db.dispatcher.results, failed, 0); }
    case Crashed => forall id | 0 <= id < |db'.rows| ensures RowOk(db', id) { assert RowOk(db, id); }
    case Redrove(id, cap) => RedriveInv(db, id, cap);
  }

  lemma {:induction false} RunInv(db: Db, es: seq<Event>)
    requires Inv(db) && LogNames(db)
    ensures Inv(Run(db, es)) && LogNames(Run(db, es))
    decreases |es|
  {
    if es != [] {
      StepInv(db, es[0]);
      RunInv(Step(db, es[0]), es[1..]);
    }
  }

  /* ---------- safety with crashes ---------- */

  /** A row that is published was published successfully at least once, and a quarantined row
      used at least five claims since it was last redriven, under any crashes. */
  lemma StatesAreEarned(es: seq<Event>, id: nat)
    requires id < |Run(Empty, es).rows|
    ensures var db := Run(Empty, es);
      && (db.rows[id].state.Published? ==> TimesSent(db.log, id) >= 1)
      && (db.rows[id].state.Quarantined? ==> ClaimsSinceRedrive(db.log, id) >= MAX_ATTEMPTS)
      && (db.rows[id].state.Pending? ==> ClaimsSinceRedrive(db.log, id) < MAX_ATTEMPTS)
  {
    RunInv(Empty, es);
    assert RowOk(Run(Empty, es), id);
  }

  /** What every step leaves of a record: its message, and its publication. */
  predicate Keeps(a: Db, b: Db) {
    && |a.rows| <= |b.rows|
    && forall id :: 0 <= id < |a.rows| ==>
         && b.rows[id].message == a.rows[id].message
         && a.rows[id].redrives <= b.rows[id].redrives
         && (a.rows[id].state.Published? ==> b.rows[id] == a.rows[id])
  }

  lemma StepKeeps(db: Db, e: Event)
    requires Inv(db)
    ensures Keeps(db, Step(db, e))
  {
    var db' := Step(db, e);
    if e.Took? {
      var ids := DueIds(db.rows, e.now, 0, BATCH);
      TakeAllEffect(db, ids, e.now, 0);
      forall id | 0 <= id < |db.rows|
        ensures db'.rows[id].message == db.rows[id].message
        ensures db.rows[id].redrives <= db'.rows[id].redrives
        ensures db.rows[id].state.Published? ==> db'.rows[id] == db.rows[id]
      {
        TakeAllEffect(db, ids, e.now, id);
      }
    } else if e.Recorded? && db' != db {
      var batch, results := db.dispatcher.batch, db.dispatcher.results;
      RecordAllEffect(db.rows, batch, results, e.failed, 0);
      forall id | 0 <= id < |db.rows|
        ensures db'.rows[id].message == db.rows[id].message
        ensures db.rows[id].redrives <= db'.rows[id].redrives
        ensures db.rows[id].state.Published? ==> db'.rows[id] == db.rows[id]
      {
        RecordAllEffect(db.rows, batch, results, e.failed, id);
        if InBatch(db.dispatcher, id) { var k :| 0 <= k < |batch| && batch[k].id == id; }
      }
    }
  }

  /** No record is lost or rewritten and published is final, in every run of one dispatcher
      from a state such a run reaches. */
  lemma {:induction false} RecordsSurvive(db: Db, es: seq<Event>)
    requires Inv(db) && LogNames(db)
    ensures Keeps(db, Run(db, es))
    decreases |es|
  {
    if es != [] {
      StepKeeps(db, es[0]);
      StepInv(db, es[0]);
      RecordsSurvive(Step(db, es[0]), es[1..]);
    }
  }

  /** A record may be claimed: it waits, or the lease on it ran out before now. */
  predicate Free(r: Row, now: int) { r.state == Pending || (r.state.Claimed? && r.state.expires < now) }

  /** An unexpired lease is never re-claimed; and of the free records the ten with the smallest
      ids are, each for sixty seconds and with one more attempt. */
  lemma ClaimTakesTheOldestDue(db: Db, now: int, id: nat)
    requires db.dispatcher.Idle? && id < |db.rows|
    ensures var db' := Step(db, Took(now));
      && |db'.rows| == |db.rows|
      && (!Free(db.rows[id], now) ==> db'.rows[id] == db.rows[id] && !InBatch(db'.dispatcher, id))
      && (Free(db.rows[id], now) ==>
            && db'.dispatcher.Sending? && db'.dispatcher.results == []
            && (InBatch(db'.dispatcher, id) ==>
                  db'.rows[id] == db.rows[id].(state := Claimed(now + 60), attempts := db.rows[id].attempts + 1))
            && (!InBatch(db'.dispatcher, id) ==>
                  && db'.rows[id] == db.rows[id]
                  && |db'.dispatcher.batch| == 10 && forall k :: 0 <= k < 10 ==> db'.dispatcher.batch[k].id < id))
  {
    var ids := DueIds(db.rows, now, 0, BATCH);
    TakeAllEffect(db, ids, now, id);
    var db' := Phase1(db, now);
    if id in ids {
      var k :| 0 <= k < |ids| && ids[k] == id;
      assert db'.dispatcher.batch[k].id == id;
    }
  }

  /** A lease runs out: a row some dispatcher abandoned is due again after at most a lease. */
  lemma AbandonedClaimsComeBack(es: seq<Event>, id: nat, now: int)
    requires id < |Run(Empty, es).rows| && ClockedBy(es, now)
    ensures var r := Run(Empty, es).rows[id];
      r.state.Published? || r.state.Quarantined? || Due(r, now + CLAIM_LEASE_SECONDS + 1)
  {
    LeasesAreShort(Empty, es, now);
  }

  predicate ClockedBy(es: seq<Event>, now: int) {
    forall k :: 0 <= k < |es| && es[k].Took? ==> es[k].now <= now
  }

  predicate ShortLeases(db: Db, now: int) {
    forall id | 0 <= id < |db.rows| && db.rows[id].state.Claimed? ::
      db.rows[id].state.expires <= now + CLAIM_LEASE_SECONDS
  }

  lemma {:induction false} LeasesAreShort(db: Db, es: seq<Event>, now: int)
    requires ShortLeases(db, now) && Inv(db) && LogNames(db) && ClockedBy(es, now)
    ensures ShortLeases(Run(db, es), now)
    decreases |es|
  {
    if es != [] {
      StepInv(db, es[0]);
      StepLeases(db, es[0], now);
      LeasesAreShort(Step(db, es[0]), es[1..], now);
    }
  }

  lemma StepLeases(db: Db, e: Event, now: int)
    requires ShortLeases(db, now) && Inv(db) && (e.Took? ==> e.now <= now)
    ensures ShortLeases(Step(db, e), now)
  {
    var db' := Step(db, e);
    forall id | 0 <= id < |db'.rows| && db'.rows[id].state.Claimed?
      ensures db'.rows[id].state.expires <= now + CLAIM_LEASE_SECONDS
    {
      if e.Took? {
        TakeAllEffect(db, DueIds(db.rows, e.now, 0, BATCH), e.now, id);
      } else if e.Recorded? && db' != db {
        RecordAllEffect(db.rows, db.dispatcher.batch, db.dispatcher.results, e.failed, id);
        if InBatch(db.dispatcher, id) { var k :| 0 <= k < |db.dispatcher.batch| && db.dispatcher.batch[k].id == id; }
      }
    }
  }
}
