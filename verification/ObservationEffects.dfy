/**
 What each observation transaction leaves behind: the samples it accepts, the rows a projection
 pass writes, the cells a poll marks stale and the checkpoints a history window moves.
 */
module ObservationEffects {
  import opened Common
  import opened Observations
  import opened ObservationSafety

  /* ---------- the projection pass ---------- */

  /** The accepted samples that no projection pass has taken yet. */
  function PendingIds(db: Db): set<nat> { set i | 0 <= i < |db.acceptances| && !db.acceptances[i].projected }

  /** A pass projects all of its batch: afterwards every envelope of it is marked projected and
      has a history row carrying its sample.  Envelopes outside the batch, and everything else
      the tables hold, are as they were. */
  lemma BatchIsProjected(es: seq<Event>, batch: set<nat>, i: nat)
    requires i < |Run(Empty, es).acceptances|
    ensures var db := Run(Empty, es);
      var db' := Step(db, Projected(batch));
      && |db'.acceptances| == |db.acceptances|
      && db'.acceptances[i].sample == db.acceptances[i].sample
      && db'.acceptances[i].viaPoll == db.acceptances[i].viaPoll
      && (db'.acceptances[i].projected <==> db.acceptances[i].projected || i in batch)
      && (i in batch ==> i in db'.history && db'.history[i] == db.acceptances[i].sample)
      && (i !in batch ==> (i in db'.history <==> i in db.history))
      && (i in db.history ==> i in db'.history && db'.history[i] == db.history[i])
      && db'.cells == db.cells && db'.cellLog == db.cellLog && db'.streams == db.streams
  {
    RunInv(Empty, es);
  }

  /** The pass takes away exactly as many pending samples as it counts, and a batch that covers
      the table leaves none. */
  lemma PendingDropsByTheCount(db: Db, batch: set<nat>)
    ensures var db' := Step(db, Projected(batch));
      var count := |set i | i in batch && i < |db.acceptances| && !db.acceptances[i].projected|;
      && PendingIds(db') == PendingIds(db) - batch
      && |PendingIds(db')| == |PendingIds(db)| - count
      && ((forall i :: i in PendingIds(db) ==> i in batch) ==> PendingIds(db') == {})
  {
    var db' := Step(db, Projected(batch));
    var due := set i | i in batch && i < |db.acceptances| && !db.acceptances[i].projected;
    assert PendingIds(db') == PendingIds(db) - due;
    assert due <= PendingIds(db);
  }

  /** Only polled samples wait for a pass: a history window projects its rows itself. */
  lemma {:induction false} PendingWasPolled(db: Db, es: seq<Event>)
    requires forall i :: i in PendingIds(db) ==> db.acceptances[i].viaPoll
    ensures forall i :: i in PendingIds(Run(db, es)) ==> Run(db, es).acceptances[i].viaPoll
    decreases |es|
  {
    if es != [] {
      var e := es[0];
      if e.PollCompleted? {
        PollGrows(db, e.samples);
        forall i | |db.acceptances| <= i < |PollAll(db, e.samples).acceptances|
          ensures PollAll(db, e.samples).acceptances[i].viaPoll
        {
          PollAddsOnly(db, e.samples, i);
        }
      } else if e.HistoryCompleted? {
        HistoryAccepts(Pass(db, map[]), e.wanted, e.rows);
      }
      PendingWasPolled(Step(db, e), es[1..]);
    }
  }

  /* ---------- what is accepted ---------- */

  /** The acceptance is a poll's, of this sample, still to be projected. */
  predicate Polls(a: Acceptance, s: Sample) { a == Acceptance(s, true, false) }

  lemma {:induction false} PollGrows(db: Db, ss: seq<Sample>)
    ensures db.acceptances <= PollAll(db, ss).acceptances && PollAll(db, ss).history == db.history
    decreases |ss|
  {
    if ss != [] { PollGrows(PollOne(db, ss[0]), ss[1..]); }
  }

  /** A poll accepts each returned sample: afterwards its item and time are accepted. */
  lemma {:induction false} PollAccepts(db: Db, ss: seq<Sample>, j: nat)
    requires j < |ss|
    ensures Accepted(PollAll(db, ss), ss[j].item, ss[j].at)
    decreases |ss|
  {
    var mid := PollOne(db, ss[0]);
    if j > 0 {
      PollAccepts(mid, ss[1..], j - 1);
    } else {
      if !Accepted(db, ss[0].item, ss[0].at) { assert mid.acceptances[|db.acceptances|].sample == ss[0]; }
      PollGrows(mid, ss[1..]);
      AcceptedStays(mid, PollAll(db, ss), ss[0].item, ss[0].at);
    }
  }

  /** .. and what it adds was returned, by it, and waits for projection. */
  lemma {:induction false} PollAddsOnly(db: Db, ss: seq<Sample>, i: nat)
    requires |db.acceptances| <= i < |PollAll(db, ss).acceptances|
    ensures exists j :: 0 <= j < |ss| && Polls(PollAll(db, ss).acceptances[i], ss[j])
    decreases |ss|
  {
    var mid, db' := PollOne(db, ss[0]), PollAll(db, ss);
    PollGrows(mid, ss[1..]);
    if i < |mid.acceptances| {
      assert Polls(db'.acceptances[i], ss[0]);
    } else {
      PollAddsOnly(mid, ss[1..], i);
      var j :| 0 <= j < |ss| - 1 && Polls(db'.acceptances[i], ss[1..][j]);
      assert Polls(db'.acceptances[i], ss[j + 1]);
    }
  }

  lemma AcceptedStays(a: Db, b: Db, item: nat, at: Moment)
    requires a.acceptances <= b.acceptances && Accepted(a, item, at)
    ensures Accepted(b, item, at)
  {
    var i :| 0 <= i < |a.acceptances| && a.acceptances[i].sample.item == item && a.acceptances[i].sample.at == at;
    assert b.acceptances[i] == a.acceptances[i];
  }

  /** The acceptance is a raw row's, for its target's definition, projected at once. */
  predicate Records(a: Acceptance, targets: map<nat, Target>, r: Row) {
    && r.item in targets && r.parsed.Some?
    && a == Acceptance(Sample(r.item, r.at, targets[r.item].definition, r.parsed.value), false, true)
  }

  /** A history window accepts what its rows say for its targets, and nothing else. */
  lemma {:induction false} HistoryAccepts(p: Pass, targets: map<nat, Target>, rs: seq<Row>)
    ensures var db' := HistoryRows(p, targets, rs).db;
      && p.db.acceptances <= db'.acceptances
      && db'.cells == p.db.cells && db'.cellLog == p.db.cellLog
      && (forall j :: 0 <= j < |rs| && rs[j].item in targets && rs[j].parsed.Some? ==>
            Accepted(db', rs[j].item, rs[j].at))
      && (forall i :: |p.db.acceptances| <= i < |db'.acceptances| ==>
            exists j :: 0 <= j < |rs| && Records(db'.acceptances[i], targets, rs[j]))
    decreases |rs|
  {
    if rs != [] {
      var mid, tail := HistoryOne(p, targets, rs[0]), rs[1..];
      var db' := HistoryRows(p, targets, rs).db;
      HistoryAccepts(mid, targets, tail);
      if rs[0].item in targets && rs[0].parsed.Some? {
        if mid != p { assert mid.db.acceptances[|p.db.acceptances|].sample.item == rs[0].item; }
        AcceptedStays(mid.db, db', rs[0].item, rs[0].at);
      }
      forall j | 0 <= j < |rs| && rs[j].item in targets && rs[j].parsed.Some?
        ensures Accepted(db', rs[j].item, rs[j].at)
      {
        if j > 0 { assert tail[j - 1] == rs[j]; }
      }
      forall i | |p.db.acceptances| <= i < |db'.acceptances|
        ensures exists j :: 0 <= j < |rs| && Records(db'.acceptances[i], targets, rs[j])
      {
        if i < |mid.db.acceptances| {
          assert Records(db'.acceptances[i], targets, rs[0]);
        } else {
          var j :| 0 <= j < |tail| && Records(db'.acceptances[i], targets, tail[j]);
          assert Records(db'.acceptances[i], targets, rs[j + 1]);
        }
      }
    }
  }

  /* ---------- which cells are current ---------- */

  predicate Returns(ss: seq<Sample>, d: nat) { exists j :: 0 <= j < |ss| && ss[j].definition == d }

  /** The samples of other definitions leave a cell alone; its own move it on, and then it is
      current. */
  lemma {:induction false} PollAllCell(db: Db, ss: seq<Sample>, d: nat)
    ensures var db' := PollAll(db, ss);
      && (d in db.cells ==> d in db'.cells)
      && (!Returns(ss, d) ==> (d in db'.cells <==> d in db.cells) && (d in db.cells ==> db'.cells[d] == db.cells[d]))
      && (d in db'.cells && (d !in db.cells || db'.cells[d] != db.cells[d]) ==> db'.cells[d].current)
      && (d in db.cells && db.cells[d].observation < |db.acceptances| ==>
            db'.cells[d] == db.cells[d] || db'.cells[d].observation >= |db.acceptances|)
    decreases |ss|
  {
    if ss != [] {
      PollAllCell(PollOne(db, ss[0]), ss[1..], d);
      if Returns(ss[1..], d) {
        var j :| 0 <= j < |ss| - 1 && ss[1..][j].definition == d;
        assert ss[j + 1].definition == d;
      }
    }
  }

  /** After a poll a cell is stale exactly if it was asked for and not returned, or was stale
      before and no newer sample moved it; a cell that was not returned keeps its value. */
  lemma StaleIffNotReturned(es: seq<Event>, ss: seq<Sample>, targets: set<nat>, d: nat)
    requires d in Step(Run(Empty, es), PollCompleted(ss, targets)).cells
    ensures var db := Run(Empty, es);
      var c' := Step(db, PollCompleted(ss, targets)).cells[d];
      && (!c'.current <==>
            || (d in targets && !Returns(ss, d))
            || (d in db.cells && c'.observation == db.cells[d].observation && !db.cells[d].current))
      && (!Returns(ss, d) ==>
            d in db.cells && c' == db.cells[d].(current := db.cells[d].current && d !in targets))
  {
    var db := Run(Empty, es);
    RunInv(Empty, es);
    assert CellOk(db, d);
    PollAllCell(db, ss, d);
    assert d in Returned(ss) <==> Returns(ss, d);
  }

  /* ---------- checkpoints ---------- */

  /** The latest of the samples accepted from position `base` on for an item. */
  predicate Latest(db: Db, base: nat, item: nat, top: Moment) {
    && (exists i :: base <= i < |db.acceptances| && db.acceptances[i].sample.item == item
                    && db.acceptances[i].sample.at == top)
    && (forall i :: base <= i < |db.acceptances| && db.acceptances[i].sample.item == item ==>
          NotAfter(db.acceptances[i].sample.at, top))
  }

  predicate Claims(targets: map<nat, Target>, k: StreamKey) {
    k.item in targets && targets[k.item].valueType == k.valueType
  }

  /** What a history completion does to a stream.  A claimed stream that had a row is touched
      once; if the window brought something, its provisional checkpoint moves on to the latest of
      it, and its safe checkpoint to the same moment but only over a later second.  A claimed
      stream without a row gets an empty one; every other stream is as it was. */
  lemma CheckpointsFollowTheWindow(db: Db, targets: map<nat, Target>, rs: seq<Row>, succeeded: bool, k: StreamKey)
    ensures var db' := Step(db, HistoryCompleted(rs, targets, succeeded));
      && (k in db'.streams <==> k in db.streams || Claims(targets, k))
      && (!succeeded ==> db'.acceptances == db.acceptances && db'.history == db.history)
      && (k in db.streams && !Claims(targets, k) ==> db'.streams[k] == db.streams[k])
      && (k !in db.streams && Claims(targets, k) ==> db'.streams[k] == Stream(None, None, 1))
      && (k in db.streams && Claims(targets, k) ==>
            var s, s' := db.streams[k], db'.streams[k];
            && s'.revision == s.revision + 1
            && (!(succeeded && Offers(db, rs, k.item)) ==> s'.provisional == s.provisional && s'.safe == s.safe)
            && (succeeded && Offers(db, rs, k.item) ==>
                  exists top :: Latest(db', |db.acceptances|, k.item, top)
                    && s'.provisional == (if s.provisional.Some? && NotAfter(top, s.provisional.value)
                                          then s.provisional else Some(top))
                    && s'.safe == (if s.safe.Some? && top.clock <= s.safe.value.clock then s.safe else Some(top))))
  {
    var db' := Step(db, HistoryCompleted(rs, targets, succeeded));
    KeysAreClaimed(targets, k);
    if succeeded {
      WindowHigh(db, targets, rs, k);
      HistoryRowsKeeps(Pass(db, map[]), targets, rs);
    }
  }

  lemma KeysAreClaimed(targets: map<nat, Target>, k: StreamKey)
    ensures k in StreamKeys(targets) <==> Claims(targets, k)
  {
    if Claims(targets, k) { assert k.item in targets && StreamKey(k.item, targets[k.item].valueType) == k; }
  }

  /** The high-water mark of a claimed stream is the latest of what the window brought, and there
      is none if it brought nothing. */
  lemma WindowHigh(db: Db, targets: map<nat, Target>, rs: seq<Row>, k: StreamKey)
    ensures var p := HistoryRows(Pass(db, map[]), targets, rs);
      && (k in p.high ==> Claims(targets, k))
      && (Claims(targets, k) ==>
            && (k in p.high <==> Offers(db, rs, k.item))
            && (k in p.high ==> Latest(p.db, |db.acceptances|, k.item, p.high[k])))
  {
    var p := HistoryRows(Pass(db, map[]), targets, rs);
    HistoryRowsHigh(Pass(db, map[]), targets, rs, |db.acceptances|);
    if k in p.high {
      var i :| |db.acceptances| <= i < |p.db.acceptances| && Peak(p.db.acceptances[i].sample, targets, k, p.high[k]);
      assert p.db.acceptances[i].sample.item == k.item;
    }
    if Claims(targets, k) {
      GainsIffOffered(Pass(db, map[]), targets, rs, k.item);
      forall i | |db.acceptances| <= i < |p.db.acceptances| && p.db.acceptances[i].sample.item == k.item
        ensures k in p.high && NotAfter(p.db.acceptances[i].sample.at, p.high[k])
      {
        assert InStream(p.db.acceptances[i].sample, targets, k);
      }
    }
  }
}
