/** What each step of the dispatcher leaves behind, record by record. */
module OutboxEffects {
  import opened Common
  import opened Outbox
  import opened OutboxSafety

  /** A record is written once, pending, with its whole budget. */
  lemma WhatIsAppended(db: Db, message: nat)
    ensures Step(db, Appended(message)) == db.(rows := db.rows + [Row(message, Pending, 0, 0)])
  {
  }

  /** The next record of the batch is sent once: its receipt, or its lack, is remembered, and no
      row changes until the outcomes are recorded. */
  lemma WhatIsPublished(db: Db, ok: bool)
    requires db.dispatcher.Sending? && |db.dispatcher.results| < |db.dispatcher.batch|
    ensures var id := db.dispatcher.batch[|db.dispatcher.results|].id;
      Step(db, Posted(ok)) ==
        Db(db.rows, Sending(db.dispatcher.batch, db.dispatcher.results + [ok]),
           db.log + [if ok then Sent(id) else Refused(id)])
  {
  }

  /** How a record of the batch ends: published with a receipt; without one quarantined at the
      fifth claim since its last redrive, pending before that.  A row whose own update failed
      stays claimed, and a record outside the batch is as it was. */
  lemma WhatIsRecorded(es: seq<Event>, failed: set<nat>, id: nat)
    requires var db := Run(Empty, es);
      id < |db.rows| && db.dispatcher.Sending? && |db.dispatcher.results| == |db.dispatcher.batch|
    ensures var db := Run(Empty, es);
      var db' := Step(db, Recorded(failed));
      && |db'.rows| == |db.rows| && db'.dispatcher == Idle && db'.log == db.log
      && (id in failed || !InBatch(db.dispatcher, id) ==> db'.rows[id] == db.rows[id])
      && (forall k :: 0 <= k < |db.dispatcher.batch| && db.dispatcher.batch[k].id == id && id !in failed ==>
            db'.rows[id] == db.rows[id].(state :=
              if db.dispatcher.results[k] then Published
              else if ClaimsSinceRedrive(db.log, id) >= 5 then Quarantined else Pending))
  {
    var db := Run(Empty, es);
    RunInv(Empty, es);
    assert RowOk(db, id);
    RecordAllEffect(db.rows, db.dispatcher.batch, db.dispatcher.results, failed, id);
  }

  /** A redrive gives a quarantined record under the cap a fresh budget and counts it; whatever
      else it finds it leaves alone. */
  lemma WhatIsRedriven(db: Db, id: nat, cap: Option<nat>)
    requires id < |db.rows|
    ensures var r := db.rows[id];
      Step(db, Redrove(id, cap)) ==
        if r.state.Quarantined? && (cap == None || r.redrives < cap.value)
        then db.(rows := db.rows[id := Row(r.message, Pending, 0, r.redrives + 1)], log := db.log + [Redriven(id)])
        else db
  {
  }

  /** A crash loses what the dispatcher remembered and nothing else. */
  lemma WhatACrashLoses(db: Db)
    ensures Step(db, Crashed) == Db(db.rows, Idle, db.log)
  {
  }
}
