/**
 How often a record is published: an exact account of duplicate publications over every run of
 one dispatcher, and what it gives for runs without crashes.
 */
module OutboxDelivery {
  import opened Common
  import opened Outbox
  import opened OutboxSafety

  /* ---------- the account ---------- */

  /** The row was published in the current batch but that is not recorded yet. */
  predicate JustSent(d: Dispatcher, id: nat) {
    d.Sending? && |d.results| <= |d.batch| && exists k :: 0 <= k < |d.results| && d.batch[k].id == id && d.results[k]
  }

  /** The publication the table or the dispatcher still knows of. */
  function Known(db: Db, id: nat): nat {
    if (id < |db.rows| && db.rows[id].state.Published?) || JustSent(db.dispatcher, id) then 1 else 0
  }

  /** The step forgets a publication that was not recorded: a crash, or a row's own update
      failing, while the record was just sent. */
  predicate Discards(db: Db, e: Event, id: nat) {
    && JustSent(db.dispatcher, id)
    && match e
       case Crashed => true
       case Recorded(failed) => id in failed && |db.dispatcher.results| == |db.dispatcher.batch|
       case _ => false
  }

  function Discarded(db: Db, es: seq<Event>, id: nat): nat
    decreases |es|
  {
    if es == [] then 0
    else (if Discards(db, es[0], id) then 1 else 0) + Discarded(Step(db, es[0]), es[1..], id)
  }

  lemma TakeAccount(db: Db, now: int, id: nat)
    requires Inv(db)
    ensures TimesSent(Phase1(db, now).log, id) == TimesSent(db.log, id)
    ensures Known(Phase1(db, now), id) == Known(db, id)
  {
    var ids := DueIds(db.rows, now, 0, BATCH);
    TakeAllEffect(db, ids, now, id);
    if Phase1(db, now) != db {
      assert !JustSent(Phase1(db, now).dispatcher, id);
    }
  }

  lemma PublishAccount(db: Db, ok: bool, id: nat)
    requires Inv(db)
    ensures TimesSent(Publish(db, ok).log, id) - Known(Publish(db, ok), id) == TimesSent(db.log, id) - Known(db, id)
  {
    var db' := Publish(db, ok);
    if db' != db {
      var n := |db.dispatcher.results|;
      var t := db.dispatcher.batch[n];
      LogGrows(db.log, db'.log[|db.log|], id);
      if JustSent(db.dispatcher, id) {
        var k :| 0 <= k < n && db.dispatcher.batch[k].id == id && db.dispatcher.results[k];
        assert db'.dispatcher.results[k];
      }
      if id == t.id && ok { assert db'.dispatcher.results[n]; }
    }
  }

  lemma RecordAccount(db: Db, failed: set<nat>, id: nat)
    requires Inv(db)
    ensures Known(db, id) == Known(Phase3(db, failed), id) + (if Discards(db, Recorded(failed), id) then 1 else 0)
  {
    var db' := Phase3(db, failed);
    if db' != db {
      var batch, results := db.dispatcher.batch, db.dispatcher.results;
      RecordAllEffect(db.rows, batch, results, failed, id);
      if InBatch(db.dispatcher, id) {
        var k :| 0 <= k < |batch| && batch[k].id == id;
        assert JustSent(db.dispatcher, id) <==> results[k];
      }
    }
  }

  lemma StepAccount(db: Db, e: Event, id: nat)
    requires Inv(db) && LogNames(db)
    ensures TimesSent(Step(db, e).log, id)
         == TimesSent(db.log, id) - Known(db, id) + Known(Step(db, e), id) + (if Discards(db, e, id) then 1 else 0)
  {
    match e
    case Took(now) => TakeAccount(db, now, id);
    case Posted(ok) => PublishAccount(db, ok, id);
    case Recorded(failed) => RecordAccount(db, failed, id);
    case Redrove(record, cap) => if Step(db, e) != db { LogGrows(db.log, Redriven(record), id); }
    case Crashed =>
      if JustSent(db.dispatcher, id) { assert id < |db.rows| && db.rows[id].state.Claimed?; }
    case Appended(message) =>
  }

  lemma {:induction false} RunAccount(db: Db, es: seq<Event>, id: nat)
    requires Inv(db) && LogNames(db)
    ensures TimesSent(Run(db, es).log, id)
         == TimesSent(db.log, id) - Known(db, id) + Known(Run(db, es), id) + Discarded(db, es, id)
    decreases |es|
  {
    if es != [] {
      StepAccount(db, es[0], id);
      StepInv(db, es[0]);
      RunAccount(Step(db, es[0]), es[1..], id);
    }
  }

  /** Over every run a record was published exactly once for each publication that was
      forgotten, and once more if the last one is still known. */
  lemma PublicationsAreCounted(es: seq<Event>, id: nat)
    ensures TimesSent(Run(Empty, es).log, id) == Discarded(Empty, es, id) + Known(Run(Empty, es), id)
  {
    RunAccount(Empty, es, id);
  }

  /** So a record is published twice if and only if a publication of it was forgotten and it
      was published again: a crash at any other moment duplicates nothing. */
  lemma PublishedTwiceIffForgotten(es: seq<Event>, id: nat)
    ensures TimesSent(Run(Empty, es).log, id) >= 2
       <==> Discarded(Empty, es, id) >= 2 || (Discarded(Empty, es, id) == 1 && Known(Run(Empty, es), id) == 1)
    ensures id < |Run(Empty, es).rows| && Run(Empty, es).rows[id].state.Published? ==>
              (TimesSent(Run(Empty, es).log, id) == 1 <==> Discarded(Empty, es, id) == 0)
  {
    PublicationsAreCounted(es, id);
  }

  /* ---------- without crashes ---------- */

  predicate CrashFree(es: seq<Event>) {
    forall k :: 0 <= k < |es| ==> es[k] != Crashed && (es[k].Recorded? ==> es[k].failed == {})
  }

  lemma {:induction false} CrashFreeForgetsNothing(db: Db, es: seq<Event>, id: nat)
    requires CrashFree(es)
    ensures Discarded(db, es, id) == 0
    decreases |es|
  {
    if es != [] { CrashFreeForgetsNothing(Step(db, es[0]), es[1..], id); }
  }

  /** Only the dispatcher's own batch is claimed, and no row is claimed a sixth time. */
  predicate Tidy(db: Db, id: nat)
    requires id < |db.rows|
  {
    && db.rows[id].attempts <= MAX_ATTEMPTS
    && (db.rows[id].state.Claimed? <==> InBatch(db.dispatcher, id))
  }

  lemma TidyTake(db: Db, now: int, id: nat)
    requires Inv(db) && id < |db.rows| && Tidy(db, id)
    ensures id < |Phase1(db, now).rows| && Tidy(Phase1(db, now), id)
  {
    var ids := DueIds(db.rows, now, 0, BATCH);
    var db' := Phase1(db, now);
    if db' != db {
      assert RowOk(db, id);
      TakeAllEffect(db, ids, now, id);
      assert InBatch(db'.dispatcher, id) <==> id in ids by {
        if id in ids {
          var k :| 0 <= k < |ids| && ids[k] == id;
          assert db'.dispatcher.batch[k].id == id;
        }
      }
    }
  }

  lemma TidyRecord(db: Db, id: nat)
    requires Inv(db) && id < |db.rows| && Tidy(db, id)
    ensures id < |Phase3(db, {}).rows| && Tidy(Phase3(db, {}), id)
  {
    if Phase3(db, {}) != db {
      var batch, results := db.dispatcher.batch, db.dispatcher.results;
      RecordAllEffect(db.rows, batch, results, {}, id);
      if InBatch(db.dispatcher, id) { var k :| 0 <= k < |batch| && batch[k].id == id; }
    }
  }

  lemma TidyPublish(db: Db, ok: bool, id: nat)
    requires BatchOk(db) && id < |db.rows| && Tidy(db, id)
    ensures Tidy(Publish(db, ok), id)
  {
    assert InBatch(Publish(db, ok).dispatcher, id) <==> InBatch(db.dispatcher, id);
  }

  lemma TidyStep(db: Db, e: Event, id: nat)
    requires Inv(db) && LogNames(db) && id < |Step(db, e).rows|
    requires e != Crashed && (e.Recorded? ==> e.failed == {})
    requires id < |db.rows| ==> Tidy(db, id)
    ensures Tidy(Step(db, e), id)
  {
    match e
    case Appended(message) =>
    case Took(now) => TakeAllNames(db, DueIds(db.rows, now, 0, BATCH), now); TidyTake(db, now, id);
    case Posted(ok) => TidyPublish(db, ok, id);
    case Recorded(failed) =>
      if id < |db.rows| {
        TidyRecord(db, id);
      } else {
        RecordAllEffect(db.rows, db.dispatcher.batch, db.dispatcher.results, {}, id);
      }
    case Redrove(record, cap) =>
  }

  lemma {:induction false} TidyRun(db: Db, es: seq<Event>)
    requires Inv(db) && LogNames(db) && CrashFree(es)
    requires forall id :: 0 <= id < |db.rows| ==> Tidy(db, id)
    ensures forall id :: 0 <= id < |Run(db, es).rows| ==> Tidy(Run(db, es), id)
    decreases |es|
  {
    if es != [] {
      var mid := Step(db, es[0]);
      StepInv(db, es[0]);
      forall id | 0 <= id < |mid.rows| ensures Tidy(mid, id) { TidyStep(db, es[0], id); }
      TidyRun(mid, es[1..]);
    }
  }

  /** Without crashes a quarantine comes after exactly five claims since the last redrive, and
      no record is ever published twice. */
  lemma CrashFreeRunsAreExact(es: seq<Event>, id: nat)
    requires CrashFree(es) && id < |Run(Empty, es).rows|
    ensures var db := Run(Empty, es);
      && (db.rows[id].state.Quarantined? ==> ClaimsSinceRedrive(db.log, id) == MAX_ATTEMPTS)
      && TimesSent(db.log, id) == Known(db, id)
  {
    RunInv(Empty, es);
    TidyRun(Empty, es);
    assert RowOk(Run(Empty, es), id) && Tidy(Run(Empty, es), id);
    PublicationsAreCounted(es, id);
    CrashFreeForgetsNothing(Empty, es, id);
  }

  /* ---------- a duplicate ---------- */

  lemma RunCons(db: Db, e: Event, es: seq<Event>)
    ensures Run(db, [e] + es) == Run(Step(db, e), es)
  {
    assert ([e] + es)[1..] == es;
  }

  lemma TakeTheOnlyRow(db: Db, now: int)
    requires db.dispatcher.Idle? && |db.rows| == 1 && Due(db.rows[0], now)
    ensures Phase1(db, now) == TakeOne(db, 0, now).(dispatcher := Sending([Taken(0, db.rows[0].attempts)], []))
  {
    assert DueIds(db.rows, now, 0, BATCH) == [0];
    assert TakeAll(db, [0], now) == TakeAll(TakeOne(db, 0, now), [], now);
    assert Remember(db.rows, [0]) == [Taken(0, db.rows[0].attempts)];
  }

  function CrashedRun(): seq<Event> {
    [Appended(9)] + ([Took(0)] + ([Posted(true)] + ([Crashed] + ([Took(61)] + ([Posted(true)] + [])))))
  }

  /** A crash between publishing and recording publishes the record again: delivery is at least
      once, not exactly once. */
  lemma CrashPublishesTwice()
    ensures TimesSent(Run(Empty, CrashedRun()).log, 0) == 2
  {
    var a := Step(Empty, Appended(9));
    TakeTheOnlyRow(a, 0);
    var b := Step(a, Took(0));
    var c := Step(b, Posted(true));
    var d := Step(c, Crashed);
    TakeTheOnlyRow(d, 61);
    var e := Step(d, Took(61));
    var f := Step(e, Posted(true));
    RunCons(e, Posted(true), []);
    RunCons(d, Took(61), [Posted(true)] + []);
    RunCons(c, Crashed, [Took(61)] + ([Posted(true)] + []));
    RunCons(b, Posted(true), [Crashed] + ([Took(61)] + ([Posted(true)] + [])));
    RunCons(a, Took(0), [Posted(true)] + ([Crashed] + ([Took(61)] + ([Posted(true)] + []))));
    RunCons(Empty, Appended(9), [Took(0)] + ([Posted(true)] + ([Crashed] + ([Took(61)] + ([Posted(true)] + [])))));
    LogGrows(a.log, Claim(0), 0);
    LogGrows(b.log, Sent(0), 0);
    LogGrows(d.log, Claim(0), 0);
    LogGrows(e.log, Sent(0), 0);
  }
}
