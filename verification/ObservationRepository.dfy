/**
 The observation tables updated in place: the current-state completion, the history
 completion and the projection pass, each against its specification function.
 */
module ObservationRepository {
  import opened Common
  import opened Observations

  function TouchOne(streams: map<StreamKey, Stream>, k: StreamKey): map<StreamKey, Stream> {
    streams[k := if k in streams then streams[k].(revision := streams[k].revision + 1) else Stream(None, None, 1)]
  }

  function TouchAll(streams: map<StreamKey, Stream>, keys: seq<StreamKey>): map<StreamKey, Stream>
    decreases |keys|
  {
    if keys == [] then streams else TouchAll(TouchOne(streams, keys[0]), keys[1..])
  }

  lemma TouchFirst(streams: map<StreamKey, Stream>, k: StreamKey, rest: set<StreamKey>)
    requires k !in rest
    ensures TouchStreams(TouchOne(streams, k), rest) == TouchStreams(streams, {k} + rest)
  {
  }

  /** Touching distinct keys one by one is touching their set. */
  lemma {:induction false} TouchAllTouches(streams: map<StreamKey, Stream>, keys: seq<StreamKey>)
    requires forall i, j :: 0 <= i < j < |keys| ==> keys[i] != keys[j]
    ensures TouchAll(streams, keys) == TouchStreams(streams, set k | k in keys)
    decreases |keys|
  {
    if keys != [] {
      var rest := set k | k in keys[1..];
      TouchAllTouches(TouchOne(streams, keys[0]), keys[1..]);
      assert (set k | k in keys) == {keys[0]} + rest by { assert keys == [keys[0]] + keys[1..]; }
      assert keys[0] !in rest;
      TouchFirst(streams, keys[0], rest);
    } else {
      assert (set k | k in keys) == {};
    }
  }

  /** The claim's targets in order, each item once. */
  ghost predicate Lists(order: seq<nat>, targets: map<nat, Target>) {
    && (forall i, j :: 0 <= i < j < |order| ==> order[i] != order[j])
    && (forall i :: i in order <==> i in targets)
  }

  ghost function KeysOf(order: seq<nat>, targets: map<nat, Target>): seq<StreamKey>
    requires Lists(order, targets)
  {
    seq(|order|, i requires 0 <= i < |order| => StreamKey(order[i], targets[order[i]].valueType))
  }

  lemma KeysOfAll(order: seq<nat>, targets: map<nat, Target>)
    requires Lists(order, targets)
    ensures (set k | k in KeysOf(order, targets)) == StreamKeys(targets)
  {
    var keys := KeysOf(order, targets);
    forall k | k in StreamKeys(targets) ensures k in keys {
      var i :| 0 <= i < |order| && order[i] == k.item;
      assert keys[i] == k;
    }
  }

  class Repository {
    var acceptances: seq<Acceptance>
    var history: map<nat, Sample>
    var cells: map<nat, Cell>
    var cellLog: seq<CellTransition>
    var streams: map<StreamKey, Stream>

    function View(): Db
      reads this
    {
      Db(acceptances, history, cells, cellLog, streams)
    }

    constructor ()
      ensures View() == Empty && Inv(View())
    {
      acceptances, history, cells, cellLog, streams := [], map[], map[], [], map[];
    }

    method Observe(s: Sample)
      modifies this
      ensures View() == PollOne(old(View()), s)
    {
      if Accepted(View(), s.item, s.at) { return; }
      var id := |acceptances|;
      acceptances := acceptances + [Acceptance(s, true, false)];
      if s.definition !in cells {
        cells := cells[s.definition := Cell(id, s.value, 1, true)];
        cellLog := cellLog + [CellTransition(s.definition, None, id, 1)];
      } else {
        var c := cells[s.definition];
        if c.observation >= id || !Before(acceptances[c.observation].sample.at, s.at) { return; }
        cells := cells[s.definition := Cell(id, s.value, c.revision + 1, true)];
        cellLog := cellLog + [CellTransition(s.definition, Some(c.observation), id, c.revision + 1)];
      }
    }

    /** _persist_observations */
    method PersistObservations(samples: seq<Sample>, targets: set<nat>)
      modifies this
      ensures View() == Step(old(View()), PollCompleted(samples, targets))
    {
      for k := 0 to |samples|
        invariant PollAll(View(), samples[k..]) == PollAll(old(View()), samples)
      {
        assert samples[k..][1..] == samples[k + 1..];
        Observe(samples[k]);
      }
      var unreturned := targets - Returned(samples);
      cells := map d | d in cells :: if d in unreturned then cells[d].(current := false) else cells[d];
      assert cells == Poll(old(View()), samples, targets).cells;
    }

    method AcceptRow(targets: map<nat, Target>, r: Row, high: map<StreamKey, Moment>)
      returns (high': map<StreamKey, Moment>)
      modifies this
      ensures Pass(View(), high') == HistoryOne(Pass(old(View()), high), targets, r)
    {
      high' := high;
      if r.item !in targets || r.parsed == None || Accepted(View(), r.item, r.at) { return; }
      var t := targets[r.item];
      var s := Sample(r.item, r.at, t.definition, r.parsed.value);
      history := history[|acceptances| := s];
      acceptances := acceptances + [Acceptance(s, false, true)];
      var key := StreamKey(r.item, t.valueType);
      if key !in high || Before(high[key], r.at) {
        high' := high[key := r.at];
      }
    }

    /** _persist_history_rows */
    method PersistHistoryRows(targets: map<nat, Target>, rows: seq<Row>)
      modifies this
      ensures var p := HistoryRows(Pass(old(View()), map[]), targets, rows);
        View() == p.db.(streams := AdvanceStreams(p.db.streams, p.high))
    {
      var high: map<StreamKey, Moment> := map[];
      for k := 0 to |rows|
        invariant HistoryRows(Pass(View(), high), targets, rows[k..])
               == HistoryRows(Pass(old(View()), map[]), targets, rows)
      {
        assert rows[k..][1..] == rows[k + 1..];
        high := AcceptRow(targets, rows[k], high);
      }
      ghost var p := Pass(View(), high);
      var todo := high.Keys;
      while todo != {}
        invariant todo <= high.Keys
        invariant View() == p.db.(streams := streams)
        invariant streams.Keys == p.db.streams.Keys
        invariant forall k :: k in streams ==>
          streams[k] == if k in high && k !in todo then Advance(p.db.streams[k], high[k]) else p.db.streams[k]
        decreases |todo|
      {
        var k :| k in todo;
        if k in streams {
          streams := streams[k := Advance(streams[k], high[k])];
        }
        todo := todo - {k};
      }
      assert streams == AdvanceStreams(p.db.streams, high);
    }

    /** The insert-or-touch of every target's stream row. */
    method TouchTargets(order: seq<nat>, targets: map<nat, Target>)
      requires Lists(order, targets)
      modifies this`streams
      ensures streams == TouchStreams(old(streams), StreamKeys(targets))
    {
      ghost var keys := KeysOf(order, targets);
      for n := 0 to |order|
        invariant TouchAll(streams, keys[n..]) == TouchAll(old(streams), keys)
      {
        assert keys[n..][1..] == keys[n + 1..];
        var k := StreamKey(order[n], targets[order[n]].valueType);
        streams := streams[k := if k in streams then streams[k].(revision := streams[k].revision + 1)
                                else Stream(None, None, 1)];
      }
      TouchAllTouches(old(streams), keys);
      KeysOfAll(order, targets);
    }

    /** complete_metric_history, after its fence */
    method CompleteHistory(order: seq<nat>, targets: map<nat, Target>, rows: seq<Row>, succeeded: bool)
      requires Lists(order, targets)
      modifies this
      ensures View() == Step(old(View()), HistoryCompleted(rows, targets, succeeded))
    {
      if succeeded {
        PersistHistoryRows(targets, rows);
      } else {
        assert streams == AdvanceStreams(streams, map[]);
      }
      TouchTargets(order, targets);
    }

    /** INSERT .. ON CONFLICT DO NOTHING of the locked envelopes. */
    method InsertObservations(due: set<nat>)
      requires forall i :: i in due ==> i < |acceptances|
      modifies this`history
      ensures history == (map i | i in due && i < |acceptances| :: acceptances[i].sample) + old(history)
    {
      ghost var rows := map i | i in due && i < |acceptances| :: acceptances[i].sample;
      var todo := due;
      while todo != {}
        invariant todo <= due
        invariant history.Keys == old(history).Keys + (due - todo)
        invariant forall i | i in history :: history[i] == (rows + old(history))[i]
        decreases |todo|
      {
        var i :| i in todo;
        if i !in history {
          history := history[i := acceptances[i].sample];
        }
        todo := todo - {i};
      }
    }

    /** project_pending_observations, for the envelopes its SELECT locked */
    method ProjectPending(batch: set<nat>) returns (count: nat)
      modifies this
      ensures View() == Step(old(View()), Projected(batch))
      ensures count == |set i | i in batch && i < |old(acceptances)| && !old(acceptances)[i].projected|
    {
      var due := set i | i in batch && i < |acceptances| && !acceptances[i].projected;
      count := |due|;
      InsertObservations(due);
      acceptances := seq(|acceptances|, i requires 0 <= i < |acceptances| reads this =>
        if i in due then acceptances[i].(projected := true) else acceptances[i]);
      assert acceptances == Project(old(View()), batch).acceptances;
    }
  }
}
