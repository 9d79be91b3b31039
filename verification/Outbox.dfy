/**
 Durable publication: one dispatcher takes a batch of outbox rows under a lease, publishes
 them outside any transaction, and records the outcomes.  It may crash between any two of
 those steps.  A record's id is its position in `rows`.  `log` is the observable history the
 theorems are stated against; no transition reads it.
 */
module Outbox {
  import opened Common

  const MAX_ATTEMPTS := 5
  const CLAIM_LEASE_SECONDS := 60
  const BATCH := 10

  datatype RowState = Pending | Claimed(expires: int) | Published | Quarantined

  datatype Row = Row(message: nat, state: RowState, attempts: nat, redrives: nat)

  /** A claimed row as the dispatcher remembers it: the attempt count was read before the claim. */
  datatype Taken = Taken(id: nat, attempts: nat)

  datatype Dispatcher = Idle | Sending(batch: seq<Taken>, results: seq<bool>)

  datatype Fact = Claim(id: nat) | Sent(id: nat) | Refused(id: nat) | Redriven(id: nat)

  datatype Db = Db(rows: seq<Row>, dispatcher: Dispatcher, log: seq<Fact>)

  const Empty := Db([], Idle, [])

  /* ---------- phase 1 ---------- */

  predicate Due(r: Row, now: int) { r.state.Pending? || (r.state.Claimed? && r.state.expires < now) }

  /** ORDER BY record_id LIMIT limit, from position `from` on */
  function DueIds(rows: seq<Row>, now: int, from: nat, limit: nat): (ids: seq<nat>)
    ensures |ids| <= limit
    ensures forall k :: 0 <= k < |ids| ==> from <= ids[k] < |rows| && Due(rows[ids[k]], now)
    ensures forall j, k :: 0 <= j < k < |ids| ==> ids[j] < ids[k]
    ensures forall id :: from <= id < |rows| && Due(rows[id], now) && id !in ids ==>
              |ids| == limit && forall k :: 0 <= k < |ids| ==> ids[k] < id
    decreases |rows| - from
  {
    if from >= |rows| || limit == 0 then []
    else if Due(rows[from], now) then [from] + DueIds(rows, now, from + 1, limit - 1)
    else DueIds(rows, now, from + 1, limit)
  }

  function TakeOne(db: Db, id: nat, now: int): Db
    requires id < |db.rows|
  {
    var r := db.rows[id];
    db.(rows := db.rows[id := r.(state := Claimed(now + CLAIM_LEASE_SECONDS), attempts := r.attempts + 1)],
        log := db.log + [Claim(id)])
  }

  function TakeAll(db: Db, ids: seq<nat>, now: int): Db
    requires forall k :: 0 <= k < |ids| ==> ids[k] < |db.rows|
    decreases |ids|
  {
    if ids == [] then db else TakeAll(TakeOne(db, ids[0], now), ids[1..], now)
  }

  function Remember(rows: seq<Row>, ids: seq<nat>): seq<Taken>
    requires forall k :: 0 <= k < |ids| ==> ids[k] < |rows|
  {
    seq(|ids|, k requires 0 <= k < |ids| => Taken(ids[k], rows[ids[k]].attempts))
  }

  function Phase1(db: Db, now: int): Db {
    if db.dispatcher.Sending? then db
    else
      var ids := DueIds(db.rows, now, 0, BATCH);
      if ids == [] then db
      else TakeAll(db, ids, now).(dispatcher := Sending(Remember(db.rows, ids), []))
  }

  /* ---------- phase 2 ---------- */

  function Publish(db: Db, ok: bool): Db {
    if db.dispatcher.Sending? && |db.dispatcher.results| < |db.dispatcher.batch| then
      var t := db.dispatcher.batch[|db.dispatcher.results|];
      db.(dispatcher := db.dispatcher.(results := db.dispatcher.results + [ok]),
          log := db.log + [if ok then Sent(t.id) else Refused(t.id)])
    else db
  }

  /* ---------- phase 3 ---------- */

  function Outcome(t: Taken, ok: bool): RowState {
    if ok then Published else if t.attempts + 1 >= MAX_ATTEMPTS then Quarantined else Pending
  }

  /** `failed` are the rows whose own transaction rolled back, or was not reached before a
      crash: they stay claimed. */
  function RecordAll(rows: seq<Row>, batch: seq<Taken>, results: seq<bool>, failed: set<nat>): seq<Row>
    requires |results| == |batch|
    decreases |batch|
  {
    if batch == [] then rows
    else
      var t := batch[0];
      RecordAll(if t.id in failed || t.id >= |rows| then rows
                else rows[t.id := rows[t.id].(state := Outcome(t, results[0]))],
                batch[1..], results[1..], failed)
  }

  function Phase3(db: Db, failed: set<nat>): Db {
    if db.dispatcher.Sending? && |db.dispatcher.results| == |db.dispatcher.batch| then
      db.(rows := RecordAll(db.rows, db.dispatcher.batch, db.dispatcher.results, failed), dispatcher := Idle)
    else db
  }

  /* ---------- runs ---------- */

  /** quarantined -> pending with a fresh budget; the bulk script has no cap. */
  function Redrive(db: Db, id: nat, cap: Option<nat>): Db {
    if id < |db.rows| && db.rows[id].state.Quarantined? && (cap == None || db.rows[id].redrives < cap.value) then
      var r := db.rows[id];
      db.(rows := db.rows[id := r.(state := Pending, attempts := 0, redrives := r.redrives + 1)],
          log := db.log + [Redriven(id)])
    else db
  }

  datatype Event =
    | Appended(message: nat)
    | Took(now: int)
    | Posted(ok: bool)
    | Recorded(failed: set<nat>)
    | Crashed
    | Redrove(record: nat, cap: Option<nat>)

  function Step(db: Db, e: Event): Db {
    match e
    case Appended(message) => db.(rows := db.rows + [Row(message, Pending, 0, 0)])
    case Took(now) => Phase1(db, now)
    case Posted(ok) => Publish(db, ok)
    case Recorded(failed) => Phase3(db, failed)
    case Crashed => db.(dispatcher := Idle)
    case Redrove(record, cap) => Redrive(db, record, cap)
  }

  function Run(db: Db, es: seq<Event>): Db
    decreases |es|
  {
    if es == [] then db else Run(Step(db, es[0]), es[1..])
  }
}
