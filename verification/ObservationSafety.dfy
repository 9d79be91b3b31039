/**
 What every run of the observation tables keeps: the current-state cell is a lexicographic
 maximum with an exact log, observations are conserved, and checkpoints only move forward.
 */
module ObservationSafety {
  import opened Common
  import opened Observations

  /* ---------- preservation, one transaction at a time ---------- */

  lemma ReplaySnoc(ts: seq<CellTransition>, t: CellTransition, d: nat)
    ensures Replay(ts + [t], d) == if t.definition == d then Follow(Replay(ts, d), t) else Replay(ts, d)
  {
    assert (ts + [t])[..|ts|] == ts;
  }

  lemma PollOneRows(db: Db, s: Sample)
    requires Unique(db) && Conserved(db)
    ensures Unique(PollOne(db, s)) && Conserved(PollOne(db, s))
  {
  }

  lemma PollOneClimbs(db: Db, s: Sample)
    requires Climbs(db)
    ensures Climbs(PollOne(db, s))
  {
    var db' := PollOne(db, s);
    forall k | 0 <= k < |db'.cellLog|
      ensures db'.cellLog[k].to < |db'.acceptances|
      ensures db'.cellLog[k].from.Some? ==>
                db'.cellLog[k].from.value < |db'.acceptances|
                && Before(db'.acceptances[db'.cellLog[k].from.value].sample.at,
                          db'.acceptances[db'.cellLog[k].to].sample.at)
    {
      if k < |db.cellLog| { assert db'.cellLog[k] == db.cellLog[k]; }
    }
  }

  lemma PollOneCell(db: Db, s: Sample, d: nat)
    requires CellOk(db, d)
    ensures CellOk(PollOne(db, s), d)
  {
  }

  lemma PollOneLog(db: Db, s: Sample, d: nat)
    requires CellOk(db, d) && LogOk(db, d)
    ensures LogOk(PollOne(db, s), d)
  {
    var db' := PollOne(db, s);
    if |db'.cellLog| > |db.cellLog| { ReplaySnoc(db.cellLog, db'.cellLog[|db.cellLog|], d); }
  }

  lemma PollOneInv(db: Db, s: Sample)
    requires Inv(db)
    ensures Inv(PollOne(db, s))
  {
    PollOneRows(db, s);
    PollOneClimbs(db, s);
    forall d: nat ensures CellOk(PollOne(db, s), d) && LogOk(PollOne(db, s), d) {
      PollOneCell(db, s, d);
      PollOneLog(db, s, d);
    }
  }

  lemma {:induction false} PollAllInv(db: Db, ss: seq<Sample>)
    requires Inv(db)
    ensures Inv(PollAll(db, ss))
    decreases |ss|
  {
    if ss != [] {
      PollOneInv(db, ss[0]);
      PollAllInv(PollOne(db, ss[0]), ss[1..]);
    }
  }

  /** Replacing acceptances by others with the same samples and sources leaves the cells' facts alone. */
  lemma SameCells(a: Db, b: Db, d: nat)
    requires CellOk(a, d) && LogOk(a, d)
    requires |a.acceptances| <= |b.acceptances| && a.cellLog == b.cellLog
    requires forall i :: 0 <= i < |a.acceptances| ==>
               a.acceptances[i].sample == b.acceptances[i].sample
               && a.acceptances[i].viaPoll == b.acceptances[i].viaPoll
    requires forall i :: |a.acceptances| <= i < |b.acceptances| ==> !b.acceptances[i].viaPoll
    requires d in a.cells <==> d in b.cells
    requires d in a.cells ==> b.cells[d] == a.cells[d].(current := b.cells[d].current)
    ensures CellOk(b, d) && LogOk(b, d)
  {
  }

  lemma SameClimbs(a: Db, b: Db)
    requires Climbs(a)
    requires |a.acceptances| <= |b.acceptances| && a.cellLog == b.cellLog
    requires forall i :: 0 <= i < |a.acceptances| ==> a.acceptances[i].sample == b.acceptances[i].sample
    ensures Climbs(b)
  {
  }

  lemma PollInv(db: Db, ss: seq<Sample>, targets: set<nat>)
    requires Inv(db)
    ensures Inv(Poll(db, ss, targets))
  {
    PollAllInv(db, ss);
    var a, b := PollAll(db, ss), Poll(db, ss, targets);
    SameClimbs(a, b);
    forall d: nat ensures CellOk(b, d) && LogOk(b, d) { SameCells(a, b, d); }
    PollAllStreams(db, ss);
  }

  lemma {:induction false} PollAllStreams(db: Db, ss: seq<Sample>)
    ensures PollAll(db, ss).streams == db.streams
    decreases |ss|
  {
    if ss != [] { PollAllStreams(PollOne(db, ss[0]), ss[1..]); }
  }

  lemma HistoryOneInv(p: Pass, targets: map<nat, Target>, r: Row)
    requires Inv(p.db)
    ensures Inv(HistoryOne(p, targets, r).db)
    ensures HistoryOne(p, targets, r).db.streams == p.db.streams
  {
    var a, b := p.db, HistoryOne(p, targets, r).db;
    HistoryOneRows(p, targets, r);
    SameClimbs(a, b);
    forall d: nat ensures CellOk(b, d) && LogOk(b, d) { SameCells(a, b, d); }
  }

  lemma HistoryOneRows(p: Pass, targets: map<nat, Target>, r: Row)
    requires Unique(p.db) && Conserved(p.db)
    ensures Unique(HistoryOne(p, targets, r).db) && Conserved(HistoryOne(p, targets, r).db)
  {
  }

  lemma {:induction false} HistoryRowsInv(p: Pass, targets: map<nat, Target>, rs: seq<Row>)
    requires Inv(p.db)
    ensures Inv(HistoryRows(p, targets, rs).db)
    ensures HistoryRows(p, targets, rs).db.streams == p.db.streams
    decreases |rs|
  {
    if rs != [] {
      HistoryOneInv(p, targets, rs[0]);
      HistoryRowsInv(HistoryOne(p, targets, rs[0]), targets, rs[1..]);
    }
  }

  lemma HistoryStreams(streams: map<StreamKey, Stream>, high: map<StreamKey, Moment>, keys: set<StreamKey>)
    requires forall k :: k in streams ==> StreamOk(streams[k])
    ensures var after := TouchStreams(AdvanceStreams(streams, high), keys);
      forall k :: k in after ==> StreamOk(after[k])
  {
  }

  lemma HistoryInv(db: Db, targets: map<nat, Target>, rs: seq<Row>, succeeded: bool)
    requires Inv(db)
    ensures Inv(History(db, targets, rs, succeeded))
  {
    HistoryRowsInv(Pass(db, map[]), targets, rs);
    var a := if succeeded then HistoryRows(Pass(db, map[]), targets, rs).db else db;
    var b := History(db, targets, rs, succeeded);
    var high := if succeeded then HistoryRows(Pass(db, map[]), targets, rs).high else map[];
    HistoryStreams(a.streams, high, StreamKeys(targets));
    SameClimbs(a, b);
    forall d: nat ensures CellOk(b, d) && LogOk(b, d) { SameCells(a, b, d); }
  }

  lemma ProjectInv(db: Db, batch: set<nat>)
    requires Inv(db)
    ensures Inv(Project(db, batch))
  {
    var b := Project(db, batch);
    SameClimbs(db, b);
    forall d: nat ensures CellOk(b, d) && LogOk(b, d) { SameCells(db, b, d); }
  }

  lemma StepInv(db: Db, e: Event)
    requires Inv(db)
    ensures Inv(Step(db, e))
  {
    match e
    case PollCompleted(samples, targets) => PollInv(db, samples, targets);
    case HistoryCompleted(rows, wanted, succeeded) => HistoryInv(db, wanted, rows, succeeded);
    case Projected(batch) => ProjectInv(db, batch);
  }

  lemma {:induction false} RunInv(db: Db, es: seq<Event>)
    requires Inv(db)
    ensures Inv(Run(db, es))
    decreases |es|
  {
    if es != [] {
      StepInv(db, es[0]);
      RunInv(Step(db, es[0]), es[1..]);
    }
  }

  /* ---------- main results over every run ---------- */

  predicate PolledFor(a: Acceptance, d: nat) { a.viaPoll && a.sample.definition == d }

  /** Provider times in lexicographic order. */
  predicate NotAfter(a: Moment, b: Moment) { a.clock < b.clock || (a.clock == b.clock && a.ns <= b.ns) }

  /** The cell of a definition exists once a poll inserted a sample for it, and then shows the
      lexicographically greatest of them. */
  lemma CellIsTheLatestPolledSample(es: seq<Event>, d: nat)
    ensures var db := Run(Empty, es);
      && (d in db.cells <==> exists i :: 0 <= i < |db.acceptances| && PolledFor(db.acceptances[i], d))
      && (d in db.cells ==>
            && db.cells[d].observation < |db.acceptances|
            && var shown := db.acceptances[db.cells[d].observation];
            && PolledFor(shown, d)
            && db.cells[d].value == shown.sample.value
            && forall i :: 0 <= i < |db.acceptances| && PolledFor(db.acceptances[i], d)
                 ==> NotAfter(db.acceptances[i].sample.at, shown.sample.at))
  {
    RunInv(Empty, es);
    assert CellOk(Run(Empty, es), d);
  }

  lemma {:induction false} ReplayCounts(ts: seq<CellTransition>, d: nat)
    requires !Replay(ts, d).Broken?
    ensures Replay(ts, d) == Start <==> TransitionsOf(ts, d) == 0
    ensures Replay(ts, d).At? ==> Replay(ts, d).revision == TransitionsOf(ts, d)
  {
    if ts != [] { ReplayCounts(ts[..|ts| - 1], d); }
  }

  /** A cell's revision is the number of its transitions; without a cell there are none. */
  lemma RevisionCountsTransitions(es: seq<Event>, d: nat)
    ensures var db := Run(Empty, es);
      TransitionsOf(db.cellLog, d) == if d in db.cells then db.cells[d].revision else 0
  {
    RunInv(Empty, es);
    assert LogOk(Run(Empty, es), d);
    ReplayCounts(Run(Empty, es).cellLog, d);
  }

  /** Index of the last transition of `d` among the first `n`. */
  function LastOf(ts: seq<CellTransition>, d: nat, n: nat): (k: Option<nat>)
    requires n <= |ts|
    ensures k.Some? ==> k.value < n && ts[k.value].definition == d
    ensures forall j :: (if k.Some? then k.value + 1 else 0) <= j < n ==> ts[j].definition != d
  {
    if n == 0 then None
    else if ts[n - 1].definition == d then Some(n - 1)
    else LastOf(ts, d, n - 1)
  }

  lemma {:induction false} ReplayAtLast(ts: seq<CellTransition>, d: nat)
    requires !Replay(ts, d).Broken?
    ensures var k := LastOf(ts, d, |ts|);
      Replay(ts, d) == if k == None then Start else At(ts[k.value].to, ts[k.value].revision)
  {
    if ts != [] {
      var front := ts[..|ts| - 1];
      ReplayAtLast(front, d);
      LastOfPrefix(ts, front, d, |ts| - 1);
    }
  }

  lemma {:induction false} LastOfPrefix(ts: seq<CellTransition>, us: seq<CellTransition>, d: nat, n: nat)
    requires n <= |ts| && n <= |us| && forall i :: 0 <= i < n ==> ts[i] == us[i]
    ensures LastOf(ts, d, n) == LastOf(us, d, n)
    decreases n
  {
    if n > 0 { LastOfPrefix(ts, us, d, n - 1); }
  }

  lemma {:induction false} ReplayPrefix(ts: seq<CellTransition>, d: nat, n: nat)
    requires n <= |ts| && !Replay(ts, d).Broken?
    ensures !Replay(ts[..n], d).Broken?
    decreases |ts|
  {
    if n < |ts| {
      ReplayPrefix(ts[..|ts| - 1], d, n);
      assert ts[..|ts| - 1][..n] == ts[..n];
    } else {
      assert ts[..n] == ts;
    }
  }

  predicate Chained(ts: seq<CellTransition>, n: nat)
    requires n < |ts|
  {
    var before := LastOf(ts, ts[n].definition, n);
    if before == None then ts[n].from == None && ts[n].revision == 1
    else ts[n].from == Some(ts[before.value].to) && ts[n].revision == ts[before.value].revision + 1
  }

  lemma ReplayedIsChained(ts: seq<CellTransition>, n: nat)
    requires n < |ts| && !Replay(ts, ts[n].definition).Broken?
    ensures Chained(ts, n)
  {
    var d := ts[n].definition;
    ReplayPrefix(ts, d, n + 1);
    ReplayPrefix(ts, d, n);
    assert ts[..n + 1] == ts[..n] + [ts[n]];
    ReplaySnoc(ts[..n], ts[n], d);
    ReplayAtLast(ts[..n], d);
    LastOfPrefix(ts, ts[..n], d, n);
  }

  /** Each transition of a cell starts at the observation where the one before it ended, one
      revision later and at a strictly later provider time; the first starts at nothing. */
  lemma TransitionsAreChained(es: seq<Event>, n: nat)
    requires n < |Run(Empty, es).cellLog|
    ensures var db := Run(Empty, es);
      var t := db.cellLog[n];
      && Chained(db.cellLog, n)
      && t.to < |db.acceptances|
      && (t.from.Some? ==>
            t.from.value < |db.acceptances|
            && Before(db.acceptances[t.from.value].sample.at, db.acceptances[t.to].sample.at))
  {
    RunInv(Empty, es);
    assert LogOk(Run(Empty, es), Run(Empty, es).cellLog[n].definition);
    ReplayedIsChained(Run(Empty, es).cellLog, n);
  }

  predicate SameKey(x: Sample, y: Sample) { x.item == y.item && x.at == y.at }

  /** Observation conservation: one acceptance per (item, clock, ns), and an observation row
      exactly for the acceptances marked projected, carrying the same data. */
  lemma ObservationsAreConserved(es: seq<Event>)
    ensures var db := Run(Empty, es);
      && (forall i, j :: 0 <= i < |db.acceptances| && 0 <= j < |db.acceptances|
            && SameKey(db.acceptances[i].sample, db.acceptances[j].sample)
            ==> i == j)
      && (forall i: nat :: i in db.history <==> i < |db.acceptances| && db.acceptances[i].projected)
      && (forall i: nat | i in db.history :: db.history[i] == db.acceptances[i].sample)
  {
    RunInv(Empty, es);
  }

  /* ---------- acceptances and checkpoints only move forward ---------- */

  predicate LaterOrEqual(a: Option<Moment>, b: Option<Moment>) {
    a == None || (b.Some? && AtMost(a.value, b.value))
  }

  /** What a later state keeps of an earlier one. */
  predicate Keeps(a: Db, b: Db) {
    && |a.acceptances| <= |b.acceptances|
    && (forall i :: 0 <= i < |a.acceptances| ==>
          && b.acceptances[i].sample == a.acceptances[i].sample
          && b.acceptances[i].viaPoll == a.acceptances[i].viaPoll
          && (a.acceptances[i].projected ==> b.acceptances[i].projected))
    && (forall k :: k in a.streams ==>
          k in b.streams
          && LaterOrEqual(a.streams[k].provisional, b.streams[k].provisional)
          && LaterOrEqual(a.streams[k].safe, b.streams[k].safe)
          && a.streams[k].revision <= b.streams[k].revision)
  }

  lemma KeepsTrans(a: Db, b: Db, c: Db)
    requires Keeps(a, b) && Keeps(b, c)
    ensures Keeps(a, c)
  {
    forall i | 0 <= i < |a.acceptances| ensures c.acceptances[i].sample == a.acceptances[i].sample {
      assert b.acceptances[i].sample == a.acceptances[i].sample;
    }
    forall k | k in a.streams ensures k in c.streams && a.streams[k].revision <= c.streams[k].revision {
      assert k in b.streams;
    }
  }

  lemma {:induction false} PollAllKeeps(db: Db, ss: seq<Sample>)
    ensures Keeps(db, PollAll(db, ss))
    decreases |ss|
  {
    if ss != [] {
      PollAllKeeps(PollOne(db, ss[0]), ss[1..]);
    }
  }

  lemma {:induction false} HistoryRowsKeeps(p: Pass, targets: map<nat, Target>, rs: seq<Row>)
    ensures Keeps(p.db, HistoryRows(p, targets, rs).db)
    ensures HistoryRows(p, targets, rs).db.streams == p.db.streams
    decreases |rs|
  {
    if rs != [] { HistoryRowsKeeps(HistoryOne(p, targets, rs[0]), targets, rs[1..]); }
  }

  lemma StepKeeps(db: Db, e: Event)
    ensures Keeps(db, Step(db, e))
  {
    match e
    case PollCompleted(samples, targets) => PollAllKeeps(db, samples);
    case HistoryCompleted(rows, wanted, succeeded) => HistoryRowsKeeps(Pass(db, map[]), wanted, rows);
    case Projected(batch) =>
  }

  /** Over every run no accepted sample is lost or altered, no projection is undone, and no
      checkpoint of a stream moves back. */
  lemma {:induction false} NothingAcceptedIsLost(db: Db, es: seq<Event>)
    ensures Keeps(db, Run(db, es))
    decreases |es|
  {
    if es != [] {
      StepKeeps(db, es[0]);
      NothingAcceptedIsLost(Step(db, es[0]), es[1..]);
      KeepsTrans(db, Step(db, es[0]), Run(db, es));
    }
  }

  /** The provisional checkpoint never falls behind the safe one. */
  lemma SafeNeverPassesProvisional(es: seq<Event>, k: StreamKey)
    requires k in Run(Empty, es).streams
    ensures LaterOrEqual(Run(Empty, es).streams[k].safe, Run(Empty, es).streams[k].provisional)
  {
    RunInv(Empty, es);
  }

  /* ---------- what a history completion does to a checkpoint ---------- */

  predicate InStream(s: Sample, targets: map<nat, Target>, k: StreamKey) {
    s.item == k.item && k.item in targets && targets[k.item].valueType == k.valueType
  }

  predicate Peak(s: Sample, targets: map<nat, Target>, k: StreamKey, at: Moment) {
    InStream(s, targets, k) && s.at == at
  }

  /** `high` holds the latest of the rows accepted from position `base` on, stream by stream. */
  ghost predicate HighOk(p: Pass, targets: map<nat, Target>, base: nat) {
    && base <= |p.db.acceptances|
    && (forall k :: k in p.high ==>
          exists i :: base <= i < |p.db.acceptances| && Peak(p.db.acceptances[i].sample, targets, k, p.high[k]))
    && (forall i, k :: base <= i < |p.db.acceptances| && InStream(p.db.acceptances[i].sample, targets, k) ==>
          k in p.high && AtMost(p.db.acceptances[i].sample.at, p.high[k]))
  }

  lemma HistoryOneHigh(p: Pass, targets: map<nat, Target>, r: Row, base: nat)
    requires HighOk(p, targets, base)
    ensures HighOk(HistoryOne(p, targets, r), targets, base)
  {
    var q := HistoryOne(p, targets, r);
    if q != p {
      var n := |p.db.acceptances|;
      var key := StreamKey(r.item, targets[r.item].valueType);
      assert q.db.acceptances[n].sample.at == r.at && InStream(q.db.acceptances[n].sample, targets, key);
      forall k | k in q.high
        ensures exists i :: base <= i < |q.db.acceptances| && Peak(q.db.acceptances[i].sample, targets, k, q.high[k])
      {
        if k in p.high && p.high[k] == q.high[k] {
          var i :| base <= i < n && Peak(p.db.acceptances[i].sample, targets, k, p.high[k]);
          assert q.db.acceptances[i] == p.db.acceptances[i];
        }
      }
      forall i, k | base <= i < |q.db.acceptances| && InStream(q.db.acceptances[i].sample, targets, k)
        ensures k in q.high && AtMost(q.db.acceptances[i].sample.at, q.high[k])
      {
        if i < n { assert q.db.acceptances[i] == p.db.acceptances[i]; }
      }
    }
  }

  lemma {:induction false} HistoryRowsHigh(p: Pass, targets: map<nat, Target>, rs: seq<Row>, base: nat)
    requires HighOk(p, targets, base)
    ensures HighOk(HistoryRows(p, targets, rs), targets, base)
    decreases |rs|
  {
    if rs != [] {
      HistoryOneHigh(p, targets, rs[0], base);
      HistoryRowsHigh(HistoryOne(p, targets, rs[0]), targets, rs[1..], base);
    }
  }

  predicate Covered(s: Stream, at: Moment) { s.provisional.Some? && AtMost(at, s.provisional.value) }

  /** Some raw row of the item parses and was not accepted before. */
  predicate Offers(db: Db, rs: seq<Row>, item: nat) {
    exists j :: 0 <= j < |rs| && rs[j].item == item && rs[j].parsed.Some? && !Accepted(db, item, rs[j].at)
  }

  /** An acceptance of the item was inserted at or after position `base`. */
  predicate Gained(db: Db, base: nat, item: nat) {
    exists i :: base <= i < |db.acceptances| && db.acceptances[i].sample.item == item
  }

  lemma AcceptedAfterOther(p: Pass, targets: map<nat, Target>, r: Row, item: nat, at: Moment)
    requires item != r.item || HistoryOne(p, targets, r) == p
    ensures Accepted(HistoryOne(p, targets, r).db, item, at) <==> Accepted(p.db, item, at)
  {
    var db, db' := p.db, HistoryOne(p, targets, r).db;
    if Accepted(db, item, at) {
      var i :| 0 <= i < |db.acceptances| && db.acceptances[i].sample.item == item && db.acceptances[i].sample.at == at;
      assert db'.acceptances[i] == db.acceptances[i];
    }
  }

  lemma GainedLater(a: Db, b: Db, base: nat, item: nat)
    requires Keeps(a, b) && Gained(a, base, item)
    ensures Gained(b, base, item)
  {
    var i :| base <= i < |a.acceptances| && a.acceptances[i].sample.item == item;
    assert b.acceptances[i].sample.item == item;
  }

  /** A claimed item gains an acceptance exactly when some row offers one. */
  lemma {:induction false} GainsIffOffered(p: Pass, targets: map<nat, Target>, rs: seq<Row>, item: nat)
    requires item in targets
    ensures Gained(HistoryRows(p, targets, rs).db, |p.db.acceptances|, item) <==> Offers(p.db, rs, item)
    decreases |rs|
  {
    HistoryRowsKeeps(p, targets, rs);
    if rs != [] {
      var r, mid, tail := rs[0], HistoryOne(p, targets, rs[0]), rs[1..];
      GainsIffOffered(mid, targets, tail, item);
      HistoryRowsKeeps(mid, targets, tail);
      if mid != p && r.item == item {
        assert mid.db.acceptances[|p.db.acceptances|].sample.item == item;
        GainedLater(mid.db, HistoryRows(mid, targets, tail).db, |p.db.acceptances|, item);
      } else {
        forall at ensures Accepted(mid.db, item, at) <==> Accepted(p.db, item, at) {
          AcceptedAfterOther(p, targets, r, item, at);
        }
        OffersTail(p.db, mid.db, rs, item);
        GainedTail(p, mid, HistoryRows(mid, targets, tail).db, item);
      }
    }
  }

  lemma OffersTail(db: Db, mid: Db, rs: seq<Row>, item: nat)
    requires rs != []
    requires forall at :: Accepted(mid, item, at) <==> Accepted(db, item, at)
    requires rs[0].item != item || rs[0].parsed == None || Accepted(db, item, rs[0].at)
    ensures Offers(mid, rs[1..], item) <==> Offers(db, rs, item)
  {
    var tail := rs[1..];
    if Offers(mid, tail, item) {
      var j :| 0 <= j < |tail| && tail[j].item == item && tail[j].parsed.Some? && !Accepted(mid, item, tail[j].at);
      assert rs[j + 1] == tail[j];
    }
    if Offers(db, rs, item) {
      var j :| 0 <= j < |rs| && rs[j].item == item && rs[j].parsed.Some? && !Accepted(db, item, rs[j].at);
      assert tail[j - 1] == rs[j];
    }
  }

  lemma GainedTail(p: Pass, mid: Pass, end: Db, item: nat)
    requires Keeps(mid.db, end) && |p.db.acceptances| <= |mid.db.acceptances|
    requires forall i :: |p.db.acceptances| <= i < |mid.db.acceptances| ==> mid.db.acceptances[i].sample.item != item
    ensures Gained(end, |p.db.acceptances|, item) <==> Gained(end, |mid.db.acceptances|, item)
  {
  }

  predicate CoversNew(db: Db, db': Db, k: StreamKey) {
    && k in db'.streams
    && forall i :: |db.acceptances| <= i < |db'.acceptances| && db'.acceptances[i].sample.item == k.item
         ==> Covered(db'.streams[k], db'.acceptances[i].sample.at)
  }

  /** A successful history completion leaves a checkpoint covering every row it accepted for a
      claimed stream if and only if the stream row existed before or no raw row of the item was
      new: the checkpoints are advanced before missing stream rows are inserted. */
  lemma WindowIsCoveredIffStreamExisted(db: Db, targets: map<nat, Target>, rs: seq<Row>, k: StreamKey)
    requires k.item in targets && targets[k.item].valueType == k.valueType
    ensures CoversNew(db, History(db, targets, rs, true), k) <==> k in db.streams || !Offers(db, rs, k.item)
  {
    var p := HistoryRows(Pass(db, map[]), targets, rs);
    HistoryRowsHigh(Pass(db, map[]), targets, rs, |db.acceptances|);
    HistoryRowsKeeps(Pass(db, map[]), targets, rs);
    GainsIffOffered(Pass(db, map[]), targets, rs, k.item);
    var db' := History(db, targets, rs, true);
    assert k in StreamKeys(targets);
    if k in db.streams {
      forall i | |db.acceptances| <= i < |db'.acceptances| && db'.acceptances[i].sample.item == k.item
        ensures Covered(db'.streams[k], db'.acceptances[i].sample.at)
      {
        assert InStream(p.db.acceptances[i].sample, targets, k);
      }
    } else {
      assert db'.streams[k] == Stream(None, None, 1);
      assert CoversNew(db, db', k) <==> !Gained(p.db, |db.acceptances|, k.item);
    }
  }

  /** A concrete first window: its only row is accepted and projected, yet the new stream row
      carries no checkpoint. */
  lemma FirstWindowLosesItsCheckpoint()
    ensures var row := Row(7, Moment(100, 0), Some("1"));
      var db := History(Empty, map[7 := Target(3, 0)], [row], true);
      && |db.acceptances| == 1 && 0 in db.history
      && StreamKey(7, 0) in db.streams && db.streams[StreamKey(7, 0)] == Stream(None, None, 1)
  {
    var row := Row(7, Moment(100, 0), Some("1"));
    var targets := map[7 := Target(3, 0)];
    var p := Pass(Empty, map[]);
    assert HistoryRows(p, targets, [row]) == HistoryOne(p, targets, row);
    assert StreamKey(7, targets[7].valueType) in StreamKeys(targets);
  }

  /* ---------- arrival order and replay do not matter ---------- */

  /** The provider reports one value per item and time, and each definition reads one item. */
  predicate Consistent(ss: seq<Sample>) {
    forall x, y :: x in ss && y in ss ==>
      && (x.item == y.item && x.at == y.at ==> x == y)
      && (x.definition == y.definition ==> x.item == y.item)
  }

  ghost predicate Holds(db: Db, x: Sample) {
    exists i :: 0 <= i < |db.acceptances| && db.acceptances[i].sample == x && db.acceptances[i].viaPoll
  }

  predicate AllPolled(db: Db) { forall i :: 0 <= i < |db.acceptances| ==> db.acceptances[i].viaPoll }

  lemma HoldsAfterOne(db: Db, s: Sample, x: Sample)
    requires AllPolled(db)
    requires forall y :: Holds(db, y) && SameKey(y, s) ==> y == s
    ensures AllPolled(PollOne(db, s))
    ensures Holds(PollOne(db, s), x) <==> Holds(db, x) || x == s
  {
    var db1 := PollOne(db, s);
    if Accepted(db, s.item, s.at) {
      var i :| 0 <= i < |db.acceptances|
               && db.acceptances[i].sample.item == s.item && db.acceptances[i].sample.at == s.at;
      assert Holds(db, db.acceptances[i].sample);
    } else {
      assert db1.acceptances[|db.acceptances|].sample == s;
      if Holds(db, x) {
        var i :| 0 <= i < |db.acceptances| && db.acceptances[i].sample == x;
        assert db1.acceptances[i] == db.acceptances[i];
      }
    }
  }

  /** Exactly the delivered samples are accepted, all through the poll path. */
  lemma {:induction false} ExactlyDelivered(db: Db, ss: seq<Sample>)
    requires AllPolled(db)
    requires forall x, y :: (Holds(db, x) || x in ss) && (Holds(db, y) || y in ss) && SameKey(x, y) ==> x == y
    ensures AllPolled(PollAll(db, ss))
    ensures forall x :: Holds(PollAll(db, ss), x) <==> Holds(db, x) || x in ss
    decreases |ss|
  {
    if ss != [] {
      var db1 := PollOne(db, ss[0]);
      forall x ensures AllPolled(db1) && (Holds(db1, x) <==> Holds(db, x) || x == ss[0]) {
        HoldsAfterOne(db, ss[0], x);
      }
      ExactlyDelivered(db1, ss[1..]);
      forall x ensures Holds(PollAll(db, ss), x) <==> Holds(db, x) || x in ss {
        assert x in ss <==> x == ss[0] || x in ss[1..];
      }
    }
  }

  /** Two tables that hold the same consistent samples show the same latest one. */
  lemma OneLatest(a: Db, b: Db, ss: seq<Sample>, d: nat)
    requires CellOk(a, d) && CellOk(b, d) && d in a.cells && d in b.cells
    requires Consistent(ss) && forall x :: (Holds(a, x) <==> x in ss) && (Holds(b, x) <==> x in ss)
    ensures a.acceptances[a.cells[d].observation].sample == b.acceptances[b.cells[d].observation].sample
  {
    var x := a.acceptances[a.cells[d].observation].sample;
    var y := b.acceptances[b.cells[d].observation].sample;
    assert Holds(a, x) && Holds(b, y);
    assert Holds(b, x) && Holds(a, y);
    assert AtMost(y.at, x.at) && AtMost(x.at, y.at);
  }

  /** Two deliveries of the same samples, in any order and with any repetition, leave every
      cell showing the same sample. */
  lemma ArrivalOrderDoesNotMatter(ss: seq<Sample>, tt: seq<Sample>, d: nat)
    requires Consistent(ss)
    requires forall x :: x in ss <==> x in tt
    ensures var a, b := PollAll(Empty, ss), PollAll(Empty, tt);
      && (d in a.cells <==> d in b.cells)
      && (d in a.cells ==>
            && a.cells[d].observation < |a.acceptances| && b.cells[d].observation < |b.acceptances|
            && a.acceptances[a.cells[d].observation].sample == b.acceptances[b.cells[d].observation].sample
            && a.cells[d].value == b.cells[d].value)
  {
    var a, b := PollAll(Empty, ss), PollAll(Empty, tt);
    Delivered(ss, d);
    Delivered(tt, d);
    if d in a.cells { assert Holds(a, a.acceptances[a.cells[d].observation].sample); }
    if d in b.cells { assert Holds(b, b.acceptances[b.cells[d].observation].sample); }
    if d in a.cells && d in b.cells { OneLatest(a, b, ss, d); }
  }

  /** What one consistent delivery leaves for a definition. */
  lemma Delivered(ss: seq<Sample>, d: nat)
    requires Consistent(ss)
    ensures CellOk(PollAll(Empty, ss), d) && forall x :: Holds(PollAll(Empty, ss), x) <==> x in ss
  {
    PollAllInv(Empty, ss);
    ExactlyDelivered(Empty, ss);
  }
}
