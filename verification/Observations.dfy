/**
 Metric samples: acceptance envelopes deduplicated by provider clock, the current-state
 cell of each definition with its transition log, the immutable history rows, and the
 per-stream checkpoints.  An observation's id is its position in `acceptances`.
 */
module Observations {
  import opened Common

  /** Provider time: seconds, then nanoseconds. */
  datatype Moment = Moment(clock: int, ns: int)

  predicate Before(a: Moment, b: Moment) { a.clock < b.clock || (a.clock == b.clock && a.ns < b.ns) }

  predicate AtMost(a: Moment, b: Moment) { a == b || Before(a, b) }

  datatype Sample = Sample(item: nat, at: Moment, definition: nat, value: string)

  datatype Acceptance = Acceptance(sample: Sample, viaPoll: bool, projected: bool)

  /** metric_current_state */
  datatype Cell = Cell(observation: nat, value: string, revision: nat, current: bool)

  datatype CellTransition = CellTransition(definition: nat, from: Option<nat>, to: nat, revision: nat)

  /** A logical stream: an item read as one history value type. */
  datatype StreamKey = StreamKey(item: nat, valueType: nat)

  datatype Stream = Stream(provisional: Option<Moment>, safe: Option<Moment>, revision: nat)

  datatype Target = Target(definition: nat, valueType: nat)

  /** A raw history row; `parsed` is None when the value does not parse. */
  datatype Row = Row(item: nat, at: Moment, parsed: Option<string>)

  datatype Db = Db(
    acceptances: seq<Acceptance>,
    history: map<nat, Sample>,
    cells: map<nat, Cell>,
    cellLog: seq<CellTransition>,
    streams: map<StreamKey, Stream>)

  const Empty := Db([], map[], map[], [], map[])

  predicate Accepted(db: Db, item: nat, at: Moment) {
    exists i :: 0 <= i < |db.acceptances| && db.acceptances[i].sample.item == item && db.acceptances[i].sample.at == at
  }

  /* ---------- current-state completion ---------- */

  /** One returned sample: deduplicated, then the cell advances only on a newer clock. */
  function PollOne(db: Db, s: Sample): Db {
    if Accepted(db, s.item, s.at) then db
    else
      var id := |db.acceptances|;
      var db1 := db.(acceptances := db.acceptances + [Acceptance(s, true, false)]);
      if s.definition !in db.cells then
        db1.(cells := db.cells[s.definition := Cell(id, s.value, 1, true)],
             cellLog := db.cellLog + [CellTransition(s.definition, None, id, 1)])
      else
        var c := db.cells[s.definition];
        if c.observation < |db.acceptances| && Before(db.acceptances[c.observation].sample.at, s.at) then
          db1.(cells := db.cells[s.definition := Cell(id, s.value, c.revision + 1, true)],
               cellLog := db.cellLog + [CellTransition(s.definition, Some(c.observation), id, c.revision + 1)])
        else db1
  }

  function PollAll(db: Db, ss: seq<Sample>): Db
    decreases |ss|
  {
    if ss == [] then db else PollAll(PollOne(db, ss[0]), ss[1..])
  }

  function Returned(ss: seq<Sample>): set<nat> { set i | 0 <= i < |ss| :: ss[i].definition }

  /** Claimed targets without a sample become stale; their value is kept. */
  function Poll(db: Db, ss: seq<Sample>, targets: set<nat>): Db {
    var db1 := PollAll(db, ss);
    db1.(cells := map d | d in db1.cells ::
      if d in targets && d !in Returned(ss) then db1.cells[d].(current := false) else db1.cells[d])
  }

  /* ---------- history completion ---------- */

  /** The tables and the per-stream high-water mark of the rows newly accepted so far. */
  datatype Pass = Pass(db: Db, high: map<StreamKey, Moment>)

  function HistoryOne(p: Pass, targets: map<nat, Target>, r: Row): Pass {
    if r.item !in targets || r.parsed == None || Accepted(p.db, r.item, r.at) then p
    else
      var t := targets[r.item];
      var s := Sample(r.item, r.at, t.definition, r.parsed.value);
      var k := StreamKey(r.item, t.valueType);
      Pass(p.db.(acceptances := p.db.acceptances + [Acceptance(s, false, true)],
                 history := p.db.history[|p.db.acceptances| := s]),
           if k !in p.high || Before(p.high[k], r.at) then p.high[k := r.at] else p.high)
  }

  function HistoryRows(p: Pass, targets: map<nat, Target>, rs: seq<Row>): Pass
    decreases |rs|
  {
    if rs == [] then p else HistoryRows(HistoryOne(p, targets, rs[0]), targets, rs[1..])
  }

  /** provisional: the lexicographic maximum.  safe: moves only on a larger clock. */
  function Advance(s: Stream, at: Moment): Stream {
    s.(provisional := if s.provisional == None || Before(s.provisional.value, at) then Some(at) else s.provisional,
       safe := if s.safe == None || s.safe.value.clock < at.clock then Some(at) else s.safe)
  }

  function AdvanceStreams(streams: map<StreamKey, Stream>, high: map<StreamKey, Moment>): map<StreamKey, Stream> {
    map k | k in streams :: if k in high then Advance(streams[k], high[k]) else streams[k]
  }

  function StreamKeys(targets: map<nat, Target>): set<StreamKey> {
    set i | i in targets :: StreamKey(i, targets[i].valueType)
  }

  /** Insert-or-touch the stream row of every target. */
  function TouchStreams(streams: map<StreamKey, Stream>, keys: set<StreamKey>): map<StreamKey, Stream> {
    map k | k in streams.Keys + keys ::
      if k !in streams then Stream(None, None, 1)
      else if k in keys then streams[k].(revision := streams[k].revision + 1)
      else streams[k]
  }

  /** The rows advance the existing stream rows first; missing stream rows come after. */
  function History(db: Db, targets: map<nat, Target>, rs: seq<Row>, succeeded: bool): Db {
    var p := if succeeded then HistoryRows(Pass(db, map[]), targets, rs) else Pass(db, map[]);
    p.db.(streams := TouchStreams(AdvanceStreams(p.db.streams, p.high), StreamKeys(targets)))
  }

  /* ---------- projection pass ---------- */

  /** Project the pending envelopes of `batch`, whichever the pass managed to lock. */
  function Project(db: Db, batch: set<nat>): Db {
    var due := set i | i in batch && i < |db.acceptances| && !db.acceptances[i].projected;
    db.(acceptances := seq(|db.acceptances|, i requires 0 <= i < |db.acceptances| =>
          if i in due then db.acceptances[i].(projected := true) else db.acceptances[i]),
        history := (map i | i in due && i < |db.acceptances| :: db.acceptances[i].sample) + db.history)
  }

  datatype Event =
    | PollCompleted(samples: seq<Sample>, targets: set<nat>)
    | HistoryCompleted(rows: seq<Row>, wanted: map<nat, Target>, succeeded: bool)
    | Projected(batch: set<nat>)

  function Step(db: Db, e: Event): Db {
    match e
    case PollCompleted(samples, targets) => Poll(db, samples, targets)
    case HistoryCompleted(rows, wanted, succeeded) => History(db, wanted, rows, succeeded)
    case Projected(batch) => Project(db, batch)
  }

  function Run(db: Db, es: seq<Event>): Db
    decreases |es|
  {
    if es == [] then db else Run(Step(db, es[0]), es[1..])
  }

  /* ---------- the invariant ---------- */

  /** At most one acceptance per (item, clock, ns). */
  predicate Unique(db: Db) {
    forall i, j :: 0 <= i < j < |db.acceptances| ==>
      db.acceptances[i].sample.item != db.acceptances[j].sample.item
      || db.acceptances[i].sample.at != db.acceptances[j].sample.at
  }

  /** A history row exists exactly for the projected acceptances, with their data. */
  predicate Conserved(db: Db) {
    && (forall i :: i in db.history ==> i < |db.acceptances|)
    && (forall i :: 0 <= i < |db.acceptances| ==>
          (i in db.history <==> db.acceptances[i].projected)
          && (i in db.history ==> db.history[i] == db.acceptances[i].sample))
  }

  /** A cell points at the greatest sample the poll path accepted for its definition. */
  predicate CellOk(db: Db, d: nat) {
    if d in db.cells then
      var c := db.cells[d];
      && c.observation < |db.acceptances|
      && var a := db.acceptances[c.observation];
      && a.viaPoll && a.sample.definition == d && c.value == a.sample.value
      && (forall i :: 0 <= i < |db.acceptances| && db.acceptances[i].viaPoll && db.acceptances[i].sample.definition == d
            ==> AtMost(db.acceptances[i].sample.at, a.sample.at))
    else
      forall i :: 0 <= i < |db.acceptances| && db.acceptances[i].viaPoll ==> db.acceptances[i].sample.definition != d
  }

  /** An independent reading of a cell's log: each transition starts where the last ended
      and the revision counts the transitions. */
  datatype Replayed = Start | At(observation: nat, revision: nat) | Broken

  function Follow(r: Replayed, t: CellTransition): Replayed {
    match r
    case Start => if t.from == None && t.revision == 1 then At(t.to, 1) else Broken
    case At(o, n) => if t.from == Some(o) && t.revision == n + 1 then At(t.to, n + 1) else Broken
    case Broken => Broken
  }

  function Replay(ts: seq<CellTransition>, d: nat): Replayed {
    if ts == [] then Start
    else
      var prior := Replay(ts[..|ts| - 1], d);
      var t := ts[|ts| - 1];
      if t.definition == d then Follow(prior, t) else prior
  }

  predicate LogOk(db: Db, d: nat) {
    Replay(db.cellLog, d) == if d in db.cells then At(db.cells[d].observation, db.cells[d].revision) else Start
  }

  function TransitionsOf(ts: seq<CellTransition>, d: nat): nat {
    if ts == [] then 0
    else TransitionsOf(ts[..|ts| - 1], d) + (if ts[|ts| - 1].definition == d then 1 else 0)
  }

  /** Every transition moves its cell to a strictly later provider time. */
  predicate Climbs(db: Db) {
    forall k :: 0 <= k < |db.cellLog| ==>
      db.cellLog[k].to < |db.acceptances|
      && (db.cellLog[k].from.Some? ==>
            db.cellLog[k].from.value < |db.acceptances|
            && Before(db.acceptances[db.cellLog[k].from.value].sample.at, db.acceptances[db.cellLog[k].to].sample.at))
  }

  predicate StreamOk(s: Stream) {
    && (s.safe == None <==> s.provisional == None)
    && (s.safe.Some? ==> AtMost(s.safe.value, s.provisional.value))
  }

  ghost predicate Inv(db: Db) {
    && Unique(db)
    && Conserved(db)
    && Climbs(db)
    && (forall d: nat :: CellOk(db, d))
    && (forall d: nat :: LogOk(db, d))
    && (forall k :: k in db.streams ==> StreamOk(db.streams[k]))
  }
}
