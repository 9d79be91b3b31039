/**
 What a completion makes of each provider event: the problem row shows the event's last
 observation, its revision counts the observations that changed something, and its log gains
 exactly the severity changes between them and the resolution, with the reason for it.
 */
module ProblemContents {
  import opened Common
  import opened ProblemState
  import ProblemLog

  /* ---------- one event's observations, read on their own ---------- */

  /** What the provider says about a problem; any difference is a new revision. */
  datatype Shape = Shape(severity: Severity, summary: string, acknowledged: bool, metadata: map<string, string>)

  function ShapeOf(r: Row): Shape { Shape(r.severity, r.summary, r.acknowledged, r.metadata) }

  function Shown(p: Observed): Shape { Shape(p.severity, p.summary, p.acknowledged, p.metadata) }

  /** The observations of one event, in the order returned. */
  function Of(ps: seq<Observed>, event: nat): seq<Observed> {
    if ps == [] then [] else (if ps[0].event == event then [ps[0]] else []) + Of(ps[1..], event)
  }

  /** .. that a completion binds: those of its scope that have a raw row. */
  function Sightings(x: Completion, ps: seq<Observed>, k: Key): seq<Observed> {
    if k.source == x.claim.source && k.generation == x.claim.generation && k.event in x.triggers
    then Of(ps, k.event) else []
  }

  /** How many observations differ from what was known before them; the first of a new event does. */
  function Changes(known: Option<Shape>, ps: seq<Observed>): nat
    decreases |ps|
  {
    if ps == [] then 0
    else (if known == Some(Shown(ps[0])) then 0 else 1) + Changes(Some(Shown(ps[0])), ps[1..])
  }

  /** When the problem counts as last confirmed: an observation that changes nothing never moves
      the time back. */
  function Confirmed(known: Option<Shape>, at: int, ps: seq<Observed>): int
    decreases |ps|
  {
    if ps == [] then at
    else
      Confirmed(Some(Shown(ps[0])), if known == Some(Shown(ps[0])) then Max(at, ps[0].openedAt) else ps[0].openedAt,
                ps[1..])
  }

  /** The transitions the observations call for: the opening, and every change of severity, each
      under the revision reached by then. */
  function Called(id: nat, known: Option<Shape>, revision: nat, ps: seq<Observed>): seq<Transition>
    decreases |ps|
  {
    if ps == [] then []
    else
      var now := Shown(ps[0]);
      var rev := if known == Some(now) then revision else revision + 1;
      (if known == None then [Transition(id, None, Active, None, now.severity, ProviderPositive, rev)]
       else if known.value.severity == now.severity then []
       else [Transition(id, Some(Active), Active, Some(known.value.severity), now.severity, SeverityChange, rev)])
      + Called(id, Some(now), rev, ps[1..])
  }

  /** The clock of the first recovery evidence for an event. */
  function RecoveredAt(recs: seq<Recovery>, event: nat): Option<int> {
    if recs == [] then None
    else if recs[0].event == event then Some(recs[0].clock) else RecoveredAt(recs[1..], event)
  }

  /* ---------- rows and their logs ---------- */

  /** The row of a problem, if it exists yet. */
  function RowAt(db: Db, id: nat): Option<Row> { if id < |db.problems| then Some(db.problems[id]) else None }

  function Known(r: Option<Row>): Option<Shape> { if r == None then None else Some(ShapeOf(r.value)) }

  function RevisionOf(r: Option<Row>): nat { if r == None then 0 else r.value.revision }

  function ConfirmedAt(r: Option<Row>): int { if r == None then 0 else r.value.lastConfirmedAt }

  function LogOf(ts: seq<Transition>, id: nat): seq<Transition> {
    if ts == [] then []
    else LogOf(ts[..|ts| - 1], id) + (if ts[|ts| - 1].problem == id then [ts[|ts| - 1]] else [])
  }

  lemma LogSnoc(ts: seq<Transition>, t: Transition, id: nat)
    ensures LogOf(ts + [t], id) == LogOf(ts, id) + (if t.problem == id then [t] else [])
  {
    assert (ts + [t])[..|ts|] == ts;
  }

  /** Transitions name problems that exist. */
  predicate Named(db: Db) { forall j :: 0 <= j < |db.transitions| ==> db.transitions[j].problem < |db.problems| }

  lemma {:induction false} NoLogYet(ts: seq<Transition>, id: nat)
    requires forall j :: 0 <= j < |ts| ==> ts[j].problem != id
    ensures LogOf(ts, id) == []
  {
    if ts != [] { NoLogYet(ts[..|ts| - 1], id); }
  }

  /** The row a problem has after observations of its event. */
  predicate Follows(before: Option<Row>, after: Row, c: Claim, ps: seq<Observed>)
    requires ps != []
  {
    var last := ps[|ps| - 1];
    && after.severity == last.severity && after.summary == last.summary
    && after.acknowledged == last.acknowledged && after.metadata == last.metadata
    && (before.Some? ==> before.value.state == Active) && after.state == Active && after.evidence == Current
    && after.pollEpoch == c.pollEpoch && after.pollGeneration == c.pollGeneration
    && after.resource == (if before == None then ps[0].resource else before.value.resource)
    && after.resolvedAt == (if before == None then None else before.value.resolvedAt)
    && after.openedAt == (if before == None then ps[0].openedAt else before.value.openedAt)
    && after.revision == RevisionOf(before) + Changes(Known(before), ps)
    && after.lastConfirmedAt == Confirmed(Known(before), ConfirmedAt(before), ps)
  }

  /** What a single observation comes to. */
  lemma OneObservation(id: nat, known: Option<Shape>, at: int, revision: nat, p: Observed)
    ensures Changes(known, [p]) == if known == Some(Shown(p)) then 0 else 1
    ensures Confirmed(known, at, [p]) == if known == Some(Shown(p)) then Max(at, p.openedAt) else p.openedAt
    ensures Called(id, known, revision, [p])
         == if known == None then [Transition(id, None, Active, None, p.severity, ProviderPositive, revision + 1)]
            else if known.value.severity == p.severity then []
            else [Transition(id, Some(Active), Active, Some(known.value.severity), p.severity, SeverityChange,
                             revision + 1)]
  {
    assert [p][1..] == [];
    var rev := if known == Some(Shown(p)) then revision else revision + 1;
    assert Called(id, Some(Shown(p)), rev, []) == [];
  }

  lemma FollowsBoth(before: Option<Row>, mid: Row, after: Row, c: Claim, p: Observed, ps: seq<Observed>)
    requires ps != [] && Follows(before, mid, c, [p]) && Follows(Some(mid), after, c, ps)
    ensures Follows(before, after, c, [p] + ps)
  {
    assert ([p] + ps)[1..] == ps;
    OneObservation(0, Known(before), ConfirmedAt(before), RevisionOf(before), p);
  }

  lemma CalledBoth(id: nat, before: Option<Row>, mid: Row, c: Claim, p: Observed, ps: seq<Observed>)
    requires Follows(before, mid, c, [p])
    ensures Called(id, Known(before), RevisionOf(before), [p] + ps)
         == Called(id, Known(before), RevisionOf(before), [p]) + Called(id, Some(ShapeOf(mid)), mid.revision, ps)
  {
    assert ([p] + ps)[1..] == ps;
    OneObservation(id, Known(before), ConfirmedAt(before), RevisionOf(before), p);
  }

  /* ---------- the loop over the returned problems ---------- */

  /** What persisting makes of one problem, whose event was sighted `s`. */
  predicate Reads(a: Db, b: Db, c: Claim, id: nat, s: seq<Observed>)
    requires id < |b.problems|
  {
    && (id < |a.problems| ==> b.problems[id].key == a.problems[id].key)
    && (s == [] ==> RowAt(b, id) == RowAt(a, id))
    && (s != [] ==> Follows(RowAt(a, id), b.problems[id], c, s))
    && LogOf(b.transitions, id)
       == LogOf(a.transitions, id) + Called(id, Known(RowAt(a, id)), RevisionOf(RowAt(a, id)), s)
  }

  lemma OneSighting(x: Completion, p: Observed, ps: seq<Observed>, k: Key)
    ensures Sightings(x, [p] + ps, k) == Sightings(x, [p], k) + Sightings(x, ps, k)
    ensures Sightings(x, [p], k) == if k == KeyOf(x.claim, p.event) && p.event in x.triggers then [p] else []
  {
    assert ([p] + ps)[1..] == ps;
    assert [p][1..] == [];
    assert [] + Of(ps, k.event) == Of(ps, k.event);
    assert Of([p] + ps, k.event) == Of([p], k.event) + Of(ps, k.event) by {
      assert Of([p], k.event) == (if p.event == k.event then [p] else []) + Of([], k.event);
    }
  }

  lemma ElsewhereReads(db: Db, x: Completion, p: Observed, id: nat)
    requires Bound(db) && PersistOne(db, x, p).Some? && id < |db.problems|
    requires db.problems[id].key != KeyOf(x.claim, p.event) || p.event !in x.triggers
    ensures Reads(db, PersistOne(db, x, p).value, x.claim, id, [])
  {
    var db' := PersistOne(db, x, p).value;
    if |db'.transitions| > |db.transitions| { LogSnoc(db.transitions, db'.transitions[|db.transitions|], id); }
  }

  lemma OpenReads(db: Db, x: Completion, p: Observed)
    requires PersistOne(db, x, p).Some? && p.event in x.triggers && KeyOf(x.claim, p.event) !in db.bindings
    ensures Reads(db, PersistOne(db, x, p).value, x.claim, |db.problems|, [p])
    ensures PersistOne(db, x, p).value.problems[|db.problems|].key == KeyOf(x.claim, p.event)
  {
    var db' := PersistOne(db, x, p).value;
    OneObservation(|db.problems|, None, 0, 0, p);
    LogSnoc(db.transitions, db'.transitions[|db.transitions|], |db.problems|);
  }

  lemma ConfirmRow(db: Db, x: Completion, p: Observed)
    requires PersistOne(db, x, p).Some? && p.event in x.triggers && KeyOf(x.claim, p.event) in db.bindings
    ensures var id, db' := db.bindings[KeyOf(x.claim, p.event)].problem, PersistOne(db, x, p).value;
      && id < |db.problems| && |db'.problems| == |db.problems| && db'.problems[id].key == db.problems[id].key
      && Follows(Some(db.problems[id]), db'.problems[id], x.claim, [p])
  {
    var r := db.problems[db.bindings[KeyOf(x.claim, p.event)].problem];
    OneObservation(0, Some(ShapeOf(r)), r.lastConfirmedAt, r.revision, p);
  }

  lemma ConfirmLog(db: Db, x: Completion, p: Observed)
    requires PersistOne(db, x, p).Some? && p.event in x.triggers && KeyOf(x.claim, p.event) in db.bindings
    ensures var id, db' := db.bindings[KeyOf(x.claim, p.event)].problem, PersistOne(db, x, p).value;
      && id < |db.problems|
      && LogOf(db'.transitions, id)
         == LogOf(db.transitions, id) + Called(id, Some(ShapeOf(db.problems[id])), db.problems[id].revision, [p])
  {
    var id, db' := db.bindings[KeyOf(x.claim, p.event)].problem, PersistOne(db, x, p).value;
    var r := db.problems[id];
    OneObservation(id, Some(ShapeOf(r)), r.lastConfirmedAt, r.revision, p);
    if r.severity == p.severity {
      assert db'.transitions == db.transitions;
    } else {
      LogSnoc(db.transitions, db'.transitions[|db.transitions|], id);
    }
  }

  lemma ConfirmReads(db: Db, x: Completion, p: Observed)
    requires PersistOne(db, x, p).Some? && p.event in x.triggers && KeyOf(x.claim, p.event) in db.bindings
    ensures var id := db.bindings[KeyOf(x.claim, p.event)].problem;
      && id < |db.problems| && |PersistOne(db, x, p).value.problems| == |db.problems|
      && Reads(db, PersistOne(db, x, p).value, x.claim, id, [p])
  {
    ConfirmRow(db, x, p);
    ConfirmLog(db, x, p);
  }

  lemma PersistOneReads(db: Db, x: Completion, p: Observed, id: nat)
    requires Bound(db) && PersistOne(db, x, p).Some? && id < |PersistOne(db, x, p).value.problems|
    ensures var db' := PersistOne(db, x, p).value;
      Reads(db, db', x.claim, id, Sightings(x, [p], db'.problems[id].key))
  {
    var db', k := PersistOne(db, x, p).value, KeyOf(x.claim, p.event);
    OneSighting(x, p, [], db'.problems[id].key);
    PersistOneEffect(db, x, p);
    if id < |db.problems| && (db.problems[id].key != k || p.event !in x.triggers) {
      ElsewhereReads(db, x, p, id);
    } else if k in db.bindings {
      ConfirmReads(db, x, p);
    } else {
      OpenReads(db, x, p);
    }
  }

  lemma PersistOneNames(db: Db, x: Completion, p: Observed)
    requires Named(db) && PersistOne(db, x, p).Some?
    ensures Named(PersistOne(db, x, p).value) && |db.problems| <= |PersistOne(db, x, p).value.problems|
  {
  }

  lemma ReadsBoth(a: Db, b: Db, d: Db, c: Claim, id: nat, p: Observed, t: seq<Observed>)
    requires id < |b.problems| && id < |d.problems| && Reads(a, b, c, id, [p]) && Reads(b, d, c, id, t)
    ensures Reads(a, d, c, id, [p] + t)
  {
    if t == [] {
      assert [p] + t == [p];
    } else {
      CalledBoth(id, RowAt(a, id), b.problems[id], c, p, t);
      FollowsBoth(RowAt(a, id), b.problems[id], d.problems[id], c, p, t);
    }
  }

  lemma ReadsThen(a: Db, b: Db, d: Db, x: Completion, ps: seq<Observed>, id: nat)
    requires ps != [] && id < |b.problems| && id < |d.problems| && b.problems[id].key == d.problems[id].key
    requires Reads(a, b, x.claim, id, Sightings(x, [ps[0]], b.problems[id].key))
    requires Reads(b, d, x.claim, id, Sightings(x, ps[1..], d.problems[id].key))
    ensures Reads(a, d, x.claim, id, Sightings(x, ps, d.problems[id].key))
  {
    var k := d.problems[id].key;
    assert ps == [ps[0]] + ps[1..];
    OneSighting(x, ps[0], ps[1..], k);
    if Sightings(x, [ps[0]], k) == [] {
      assert [] + Sightings(x, ps[1..], k) == Sightings(x, ps[1..], k);
      assert RowAt(b, id) == RowAt(a, id);
    } else {
      ReadsBoth(a, b, d, x.claim, id, ps[0], Sightings(x, ps[1..], k));
    }
  }

  lemma OpensThen(a: Db, b: Db, d: Db, x: Completion, ps: seq<Observed>, id: nat)
    requires ps != [] && |a.problems| <= |b.problems| <= id < |d.problems| && Named(a) && Named(b)
    requires Sightings(x, [ps[0]], d.problems[id].key) == []
    requires Reads(b, d, x.claim, id, Sightings(x, ps[1..], d.problems[id].key))
    ensures Reads(a, d, x.claim, id, Sightings(x, ps, d.problems[id].key))
  {
    var k := d.problems[id].key;
    assert ps == [ps[0]] + ps[1..];
    OneSighting(x, ps[0], ps[1..], k);
    assert [] + Sightings(x, ps[1..], k) == Sightings(x, ps[1..], k);
    NoLogYet(b.transitions, id);
    NoLogYet(a.transitions, id);
  }

  lemma {:induction false} PersistAllReads(db: Db, x: Completion, ps: seq<Observed>, id: nat)
    requires Bound(db) && Named(db) && PersistAll(db, x, ps).Some? && id < |PersistAll(db, x, ps).value.problems|
    ensures var db' := PersistAll(db, x, ps).value;
      Reads(db, db', x.claim, id, Sightings(x, ps, db'.problems[id].key))
    decreases |ps|
  {
    if ps != [] {
      var mid, db' := PersistOne(db, x, ps[0]).value, PersistAll(db, x, ps).value;
      PersistOneEffect(db, x, ps[0]);
      PersistOneNames(db, x, ps[0]);
      PersistAllReads(mid, x, ps[1..], id);
      if id < |mid.problems| {
        PersistOneReads(db, x, ps[0], id);
        KeysStay(mid, x, ps[1..], id);
        ReadsThen(db, mid, db', x, ps, id);
      } else {
        PersistAllEffect(mid, x, ps[1..]);
        NotSightedYet(mid, x, ps, id);
        OpensThen(db, mid, db', x, ps, id);
      }
    }
  }

  /** A problem that is opened later was not sighted before. */
  lemma NotSightedYet(mid: Db, x: Completion, ps: seq<Observed>, id: nat)
    requires ps != [] && Bound(mid) && Named(mid) && PersistAll(mid, x, ps[1..]).Some?
    requires |mid.problems| <= id < |PersistAll(mid, x, ps[1..]).value.problems|
    requires Bound(PersistAll(mid, x, ps[1..]).value)
    requires ps[0].event in x.triggers ==> StateAt(mid, KeyOf(x.claim, ps[0].event)).Some?
    ensures Sightings(x, [ps[0]], PersistAll(mid, x, ps[1..]).value.problems[id].key) == []
    decreases |ps|, 0
  {
    var db', k := PersistAll(mid, x, ps[1..]).value, KeyOf(x.claim, ps[0].event);
    OneSighting(x, ps[0], [], db'.problems[id].key);
    if db'.problems[id].key == k && ps[0].event in x.triggers {
      var j := mid.bindings[k].problem;
      KeysStay(mid, x, ps[1..], j);
      assert false;
    }
  }

  lemma {:induction false} KeysStay(db: Db, x: Completion, ps: seq<Observed>, j: nat)
    requires j < |db.problems| && PersistAll(db, x, ps).Some?
    ensures j < |PersistAll(db, x, ps).value.problems|
    ensures PersistAll(db, x, ps).value.problems[j].key == db.problems[j].key
    decreases |ps|
  {
    if ps != [] { KeysStay(PersistOne(db, x, ps[0]).value, x, ps[1..], j); }
  }

  /* ---------- recovery and omission ---------- */

  function Ended(r: Row, c: Claim, at: int): Row {
    r.(state := Resolved, resolvedAt := Some(at), lastConfirmedAt := at, evidence := Current,
       revision := r.revision + 1, pollEpoch := c.pollEpoch, pollGeneration := c.pollGeneration)
  }

  /** Problem `id` was resolved at `at` for `reason`, or left alone. */
  predicate Ends(a: Db, b: Db, c: Claim, id: nat, at: Option<int>, reason: Reason)
    requires id < |a.problems|
  {
    var r := a.problems[id];
    && |b.problems| == |a.problems|
    && b.problems[id] == (if at.Some? then Ended(r, c, at.value) else r)
    && LogOf(b.transitions, id) == LogOf(a.transitions, id)
         + (if at == None then []
            else [Transition(id, Some(Active), Resolved, Some(r.severity), r.severity, reason, r.revision + 1)])
  }

  lemma ResolveEnds(db: Db, c: Claim, other: nat, at: int, reason: Reason, id: nat)
    requires id < |db.problems| && other < |db.problems|
    ensures Ends(db, ResolveRow(db, c, other, at, reason), c, id, if id == other then Some(at) else None, reason)
  {
    var db' := ResolveRow(db, c, other, at, reason);
    LogSnoc(db.transitions, db'.transitions[|db.transitions|], id);
  }

  lemma NothingEnds(db: Db, c: Claim, id: nat, reason: Reason)
    requires id < |db.problems|
    ensures Ends(db, db, c, id, None, reason)
  {
  }

  lemma EndsThen(a: Db, b: Db, d: Db, c: Claim, id: nat, s: Option<int>, t: Option<int>, reason: Reason)
    requires id < |a.problems| && Ends(a, b, c, id, s, reason) && Ends(b, d, c, id, t, reason)
    requires s == None || t == None
    ensures Ends(a, d, c, id, if s.Some? then s else t, reason)
  {
  }

  /** The time at which the recovery evidence of a completion resolves a row. */
  function RecoveryOf(c: Claim, recs: seq<Recovery>, r: Row): Option<int> {
    if r.state == Active && r.key.source == c.source && r.key.generation == c.generation
    then RecoveredAt(recs, r.key.event) else None
  }

  lemma RecoverOneEnds(db: Db, c: Claim, rec: Recovery, id: nat)
    requires Bound(db) && RecoverOne(db, c, rec).Some? && id < |db.problems|
    ensures Ends(db, RecoverOne(db, c, rec).value, c, id, RecoveryOf(c, [rec], db.problems[id]), ProviderRecovery)
  {
    var k := KeyOf(c, rec.event);
    assert RecoveredAt([rec], rec.event) == Some(rec.clock);
    assert forall e :: e != rec.event ==> RecoveredAt([rec], e) == None by {
      assert [rec][1..] == [];
      assert forall e :: RecoveredAt([], e) == None;
    }
    if k in db.bindings && db.problems[db.bindings[k].problem].state == Active {
      ResolveEnds(db, c, db.bindings[k].problem, rec.clock, ProviderRecovery, id);
    } else {
      NothingEnds(db, c, id, ProviderRecovery);
    }
  }

  lemma {:induction false} RecoverAllEnds(db: Db, c: Claim, recs: seq<Recovery>, id: nat)
    requires Bound(db) && RecoverAll(db, c, recs).Some? && id < |db.problems|
    ensures Ends(db, RecoverAll(db, c, recs).value, c, id, RecoveryOf(c, recs, db.problems[id]), ProviderRecovery)
    decreases |recs|
  {
    if recs == [] {
      NothingEnds(db, c, id, ProviderRecovery);
    } else {
      var mid := RecoverOne(db, c, recs[0]).value;
      RecoverOneEffect(db, c, recs[0]);
      RecoverOneEnds(db, c, recs[0], id);
      RecoverAllEnds(mid, c, recs[1..], id);
      assert [recs[0]][1..] == [];
      EndsThen(db, mid, RecoverAll(db, c, recs).value, c, id, RecoveryOf(c, [recs[0]], db.problems[id]),
               RecoveryOf(c, recs[1..], mid.problems[id]), ProviderRecovery);
    }
  }

  /** The time at which omission from a complete snapshot resolves a row. */
  function OmissionOf(c: Claim, seen: set<nat>, now: int, r: Row): Option<int> {
    if r.state == Active && r.key.source == c.source && r.key.generation == c.generation && r.key.event !in seen
    then Some(now) else None
  }

  lemma {:induction false} OmitEnds(db: Db, c: Claim, seen: set<nat>, now: int, from: nat, id: nat)
    requires from <= |db.problems| && id < |db.problems|
    ensures Ends(db, OmitFrom(db, c, seen, now, from), c, id,
                 if from <= id then OmissionOf(c, seen, now, db.problems[id]) else None, AuthoritativeNegative)
    decreases |db.problems| - from
  {
    if from == |db.problems| {
      NothingEnds(db, c, id, AuthoritativeNegative);
    } else if Omitted(c, seen, db.problems[from]) {
      var mid := ResolveRow(db, c, from, now, AuthoritativeNegative);
      ResolveEnds(db, c, from, now, AuthoritativeNegative, id);
      OmitEnds(mid, c, seen, now, from + 1, id);
      EndsThen(db, mid, OmitFrom(mid, c, seen, now, from + 1), c, id, if id == from then Some(now) else None,
               if from + 1 <= id then OmissionOf(c, seen, now, mid.problems[id]) else None, AuthoritativeNegative);
    } else {
      OmitEnds(db, c, seen, now, from + 1, id);
    }
  }

  /* ---------- the whole completion, problem by problem ---------- */

  lemma {:induction false} BindableIsSighted(ps: seq<Observed>, triggers: map<nat, nat>, event: nat)
    ensures event in Bindable(ps, triggers) <==> event in triggers && Of(ps, event) != []
  {
    if ps != [] { BindableIsSighted(ps[1..], triggers, event); }
  }

  function SightingsOf(x: Completion, k: Key): seq<Observed> { Sightings(x, x.problems, k) }

  predicate OfClaim(c: Claim, r: Row) { r.key.source == c.source && r.key.generation == c.generation }

  /** When, and why, a completion resolves a problem that was active after the observations `s`. */
  function Ending(x: Completion, m: Row, s: seq<Observed>): Option<(int, Reason)> {
    if m.state == Resolved || !OfClaim(x.claim, m) then None
    else if RecoveredAt(x.recoveries, m.key.event).Some?
    then Some((RecoveredAt(x.recoveries, m.key.event).value, ProviderRecovery))
    else if x.complete && s == [] then Some((x.now, AuthoritativeNegative))
    else None
  }

  /** The row after the last stage, from the row after the observations. */
  function Closed(x: Completion, m: Row, s: seq<Observed>): Row {
    var e := Ending(x, m, s);
    if e.Some? then Ended(m, x.claim, e.value.0)
    else if !x.complete && s == [] && m.state == Active && OfClaim(x.claim, m)
    then m.(evidence := EvidenceReconciliation) else m
  }

  function Closing(id: nat, x: Completion, m: Row, s: seq<Observed>): seq<Transition> {
    var e := Ending(x, m, s);
    if e == None then []
    else [Transition(id, Some(Active), Resolved, Some(m.severity), m.severity, e.value.1, m.revision + 1)]
  }

  lemma {:induction false} OmitLength(db: Db, c: Claim, seen: set<nat>, now: int, from: nat)
    requires from <= |db.problems|
    ensures |OmitFrom(db, c, seen, now, from).problems| == |db.problems|
    decreases |db.problems| - from
  {
    if from < |db.problems| {
      OmitLength(if Omitted(c, seen, db.problems[from]) then ResolveRow(db, c, from, now, AuthoritativeNegative)
                 else db, c, seen, now, from + 1);
    }
  }

  /** The row and the log after the last stage, from those after the observations. */
  lemma ClosingStage(p: Db, r: Db, x: Completion, id: nat)
    requires Bound(p) && RecoverAll(p, x.claim, x.recoveries) == Some(r) && id < |p.problems|
    ensures var last := if x.complete then OmitFrom(r, x.claim, Seen(x), x.now, 0)
                        else DegradeOmitted(r, x.claim, Seen(x));
      var m := p.problems[id];
      var s := SightingsOf(x, m.key);
      && |last.problems| == |p.problems|
      && last.problems[id] == Closed(x, m, s)
      && LogOf(last.transitions, id) == LogOf(p.transitions, id) + Closing(id, x, m, s)
  {
    var m := p.problems[id];
    RecoverAllEnds(p, x.claim, x.recoveries, id);
    BindableIsSighted(x.problems, x.triggers, m.key.event);
    if x.complete { OmitEnds(r, x.claim, Seen(x), x.now, 0, id); }
  }

  /** Problem by problem, a completion reads the event's observations and then its ending. */
  lemma CompletionReads(db: Db, x: Completion, id: nat) returns (m: Row)
    requires Bound(db) && Named(db) && x.succeeded && Complete(db, x).Some?
    requires id < |Complete(db, x).value.problems|
    ensures var db' := Complete(db, x).value;
      var s := SightingsOf(x, m.key);
      && m.key == db'.problems[id].key
      && (s == [] ==> RowAt(db, id) == Some(m))
      && (s != [] ==> Follows(RowAt(db, id), m, x.claim, s))
      && db'.problems[id] == Closed(x, m, s)
      && LogOf(db'.transitions, id)
         == LogOf(db.transitions, id) + Called(id, Known(RowAt(db, id)), RevisionOf(RowAt(db, id)), s)
            + Closing(id, x, m, s)
  {
    var p := PersistAll(db, x, x.problems).value;
    PersistAllEffect(db, x, x.problems);
    var r := RecoverAll(p, x.claim, x.recoveries).value;
    RecoverAllLength(p, x.claim, x.recoveries);
    if x.complete { OmitLength(r, x.claim, Seen(x), x.now, 0); }
    PersistAllReads(db, x, x.problems, id);
    ClosingStage(p, r, x, id);
    m := p.problems[id];
  }

  lemma {:induction false} RecoverAllLength(db: Db, c: Claim, recs: seq<Recovery>)
    requires RecoverAll(db, c, recs).Some?
    ensures |RecoverAll(db, c, recs).value.problems| == |db.problems|
    decreases |recs|
  {
    if recs != [] { RecoverAllLength(RecoverOne(db, c, recs[0]).value, c, recs[1..]); }
  }

  /* ---------- main results, after every run ---------- */

  lemma {:induction false} NamedIsReplayed(ts: seq<Transition>, id: nat, j: nat)
    requires j < |ts| && ts[j].problem == id
    ensures ProblemLog.Replay(ts, id) != ProblemLog.Start
  {
    if j < |ts| - 1 { NamedIsReplayed(ts[..|ts| - 1], id, j); }
  }

  lemma RunTables(xs: seq<Completion>)
    ensures Bound(Run(Empty, xs)) && Named(Run(Empty, xs))
  {
    var db := Run(Empty, xs);
    ProblemLog.RunLog(Empty, xs);
    forall j | 0 <= j < |db.transitions| ensures db.transitions[j].problem < |db.problems| {
      NamedIsReplayed(db.transitions, db.transitions[j].problem, j);
      assert ProblemLog.Refines(db, db.transitions[j].problem);
    }
  }

  lemma {:induction false} LastOf(ps: seq<Observed>, j: nat)
    requires j < |ps| && forall i :: j < i < |ps| ==> ps[i].event != ps[j].event
    ensures var s := Of(ps, ps[j].event); s != [] && s[|s| - 1] == ps[j]
  {
    if j > 0 {
      LastOf(ps[1..], j - 1);
    } else {
      NoneOf(ps[1..], ps[0].event);
    }
  }

  lemma {:induction false} NoneOf(ps: seq<Observed>, event: nat)
    ensures Of(ps, event) == [] <==> forall i :: 0 <= i < |ps| ==> ps[i].event != event
  {
    if ps != [] {
      NoneOf(ps[1..], event);
      assert forall i :: 0 < i < |ps| ==> ps[i] == ps[1..][i - 1];
    }
  }

  lemma {:induction false} RecoveredWhen(recs: seq<Recovery>, event: nat)
    ensures RecoveredAt(recs, event) == None <==> forall j :: 0 <= j < |recs| ==> recs[j].event != event
    ensures RecoveredAt(recs, event).Some? ==>
              exists j :: 0 <= j < |recs| && recs[j].event == event && recs[j].clock == RecoveredAt(recs, event).value
  {
    if recs != [] {
      RecoveredWhen(recs[1..], event);
      assert forall j :: 0 < j < |recs| ==> recs[j] == recs[1..][j - 1];
    }
  }

  /** After a commit the row of every returned event that has a raw row shows what the event's
      last observation said, is confirmed by this poll, and is active unless recovery evidence
      names the event. */
  lemma RowShowsTheLastObservation(xs: seq<Completion>, x: Completion, j: nat)
    requires x.succeeded && Complete(Run(Empty, xs), x).Some?
    requires j < |x.problems| && x.problems[j].event in x.triggers
    requires forall i :: j < i < |x.problems| ==> x.problems[i].event != x.problems[j].event
    ensures var db', p := Complete(Run(Empty, xs), x).value, x.problems[j];
      var k := Key(x.claim.source, x.claim.generation, p.event);
      && k in db'.bindings && db'.bindings[k].problem < |db'.problems|
      && var r := db'.problems[db'.bindings[k].problem];
      && r.key == k
      && r.severity == p.severity && r.summary == p.summary
      && r.acknowledged == p.acknowledged && r.metadata == p.metadata
      && r.evidence == Current
      && r.pollEpoch == x.claim.pollEpoch && r.pollGeneration == x.claim.pollGeneration
      && (r.state == Active <==> forall i :: 0 <= i < |x.recoveries| ==> x.recoveries[i].event != p.event)
  {
    var db, k := Run(Empty, xs), Key(x.claim.source, x.claim.generation, x.problems[j].event);
    RunTables(xs);
    LastOf(x.problems, j);
    BindableIsSighted(x.problems, x.triggers, k.event);
    CompletionEffect(db, x, k);
    CompletionIsBound(db, x, k);
    var m := CompletionReads(db, x, Complete(db, x).value.bindings[k].problem);
    RecoveredWhen(x.recoveries, k.event);
  }

  lemma CompletionIsBound(db: Db, x: Completion, k: Key)
    requires Bound(db) && x.succeeded && Complete(db, x).Some?
    requires SightingsOf(x, k) != []
    ensures StateAt(Complete(db, x).value, k).Some?
  {
    PersistAllEffect(db, x, x.problems);
    BindableIsSighted(x.problems, x.triggers, k.event);
    var p := PersistAll(db, x, x.problems).value;
    RecoverAllEffect(p, x.claim, x.recoveries);
    var r := RecoverAll(p, x.claim, x.recoveries).value;
    if x.complete { OmitEffect(r, x.claim, Seen(x), x.now, 0); } else { DegradeEffect(r, x.claim, Seen(x)); }
  }

  /** A problem that was not returned keeps what it says; and every problem's revision grows by
      one for each observation that said something new and by one for its resolution, and by
      nothing else. */
  lemma RevisionCountsTheChanges(xs: seq<Completion>, x: Completion, id: nat)
    requires x.succeeded && Complete(Run(Empty, xs), x).Some?
    requires id < |Complete(Run(Empty, xs), x).value.problems|
    ensures var db, db' := Run(Empty, xs), Complete(Run(Empty, xs), x).value;
      var r' := db'.problems[id];
      var s := SightingsOf(x, r'.key);
      var resolvedNow := r'.state == Resolved && (RowAt(db, id) == None || db.problems[id].state == Active);
      && (s == [] ==> id < |db.problems| && ShapeOf(r') == ShapeOf(db.problems[id])
                      && r'.openedAt == db.problems[id].openedAt && r'.resource == db.problems[id].resource)
      && r'.revision == RevisionOf(RowAt(db, id)) + Changes(Known(RowAt(db, id)), s) + (if resolvedNow then 1 else 0)
  {
    RunTables(xs);
    var m := CompletionReads(Run(Empty, xs), x, id);
  }

  predicate RecoveryFor(x: Completion, event: nat) {
    exists i :: 0 <= i < |x.recoveries| && x.recoveries[i].event == event
  }

  predicate RecoveryOn(x: Completion, event: nat, at: int) {
    exists i :: 0 <= i < |x.recoveries| && x.recoveries[i].event == event && x.recoveries[i].clock == at
  }

  /** How a problem that was active ends: `r` and `t` are its row and last transition. */
  predicate EndsWithReason(x: Completion, r: Row, t: Transition) {
    && r.resolvedAt == Some(r.lastConfirmedAt) && r.evidence == Current
    && t.fromState == Some(Active) && t.toState == Resolved && t.revision == r.revision
    && (if RecoveryFor(x, r.key.event)
        then t.reason == ProviderRecovery && RecoveryOn(x, r.key.event, r.lastConfirmedAt)
        else t.reason == AuthoritativeNegative && r.lastConfirmedAt == x.now)
  }

  lemma EndingIs(id: nat, x: Completion, m: Row, s: seq<Observed>)
    requires m.state == Active
    ensures var r, t := Closed(x, m, s), Closing(id, x, m, s);
      && (r.state == Resolved <==> OfClaim(x.claim, m) && (RecoveryFor(x, m.key.event) || (x.complete && s == [])))
      && (r.state == Resolved ==> |t| == 1 && EndsWithReason(x, r, t[0]))
      && (r.state == Active && s == [] ==>
            r.evidence == (if OfClaim(x.claim, m) then EvidenceReconciliation else m.evidence))
  {
    RecoveredWhen(x.recoveries, m.key.event);
  }

  lemma LastInLog(a: seq<Transition>, b: seq<Transition>)
    requires |b| == 1
    ensures a + b != [] && (a + b)[|a + b| - 1] == b[0]
  {
  }

  /** A problem resolved by a completion names the evidence for it: at the clock of a recovery
      of its event, or else at the completion's time, unreturned by a complete snapshot.  A
      problem of the claim that stays active unreturned loses its current evidence. */
  lemma ResolutionsNameTheirEvidence(xs: seq<Completion>, x: Completion, id: nat)
    requires x.succeeded && Complete(Run(Empty, xs), x).Some?
    requires id < |Complete(Run(Empty, xs), x).value.problems|
    requires id < |Run(Empty, xs).problems| ==> Run(Empty, xs).problems[id].state == Active
    ensures var db, db' := Run(Empty, xs), Complete(Run(Empty, xs), x).value;
      var r, log := db'.problems[id], LogOf(db'.transitions, id);
      var s := SightingsOf(x, r.key);
      && (r.state == Resolved <==> OfClaim(x.claim, r) && (RecoveryFor(x, r.key.event) || (x.complete && s == [])))
      && (r.state == Resolved ==> log != [] && EndsWithReason(x, r, log[|log| - 1]))
      && (r.state == Active && s == [] ==>
            id < |db.problems|
            && r.evidence == (if OfClaim(x.claim, r) then EvidenceReconciliation else db.problems[id].evidence))
  {
    var db, db' := Run(Empty, xs), Complete(Run(Empty, xs), x).value;
    RunTables(xs);
    var m := CompletionReads(db, x, id);
    var s := SightingsOf(x, m.key);
    EndingIs(id, x, m, s);
    if db'.problems[id].state == Resolved {
      LastInLog(LogOf(db.transitions, id) + Called(id, Known(RowAt(db, id)), RevisionOf(RowAt(db, id)), s),
                Closing(id, x, m, s));
    }
  }

  /* ---------- severity changes ---------- */

  /** The severity shown before the j-th observation. */
  function SeverityBefore(known: Option<Shape>, ps: seq<Observed>, j: nat): Option<Severity>
    requires j < |ps|
  {
    if j > 0 then Some(ps[j - 1].severity) else if known == None then None else Some(known.value.severity)
  }

  predicate ChangesTo(t: Transition, from: Severity, to: Severity) {
    t.reason == SeverityChange && t.fromSeverity == Some(from) && t.toSeverity == to
  }

  predicate StepAt(known: Option<Shape>, ps: seq<Observed>, j: nat, from: Severity, to: Severity)
    requires j < |ps|
  {
    SeverityBefore(known, ps, j) == Some(from) && ps[j].severity == to
  }

  /** Some observation changed the one severity to the other. */
  predicate Steps(known: Option<Shape>, ps: seq<Observed>, from: Severity, to: Severity) {
    from != to && exists j :: 0 <= j < |ps| && StepAt(known, ps, j, from, to)
  }

  lemma StepShifts(known: Option<Shape>, ps: seq<Observed>, j: nat, from: Severity, to: Severity)
    requires j + 1 < |ps|
    ensures StepAt(known, ps, j + 1, from, to) <==> StepAt(Some(Shown(ps[0])), ps[1..], j, from, to)
  {
  }

  lemma StepsSplit(known: Option<Shape>, ps: seq<Observed>, from: Severity, to: Severity)
    requires ps != []
    ensures Steps(known, ps, from, to) <==>
              (from != to && StepAt(known, ps, 0, from, to)) || Steps(Some(Shown(ps[0])), ps[1..], from, to)
  {
    if j :| 0 <= j < |ps| && StepAt(known, ps, j, from, to) && j > 0 { StepShifts(known, ps, j - 1, from, to); }
    if j :| 0 <= j < |ps| - 1 && StepAt(Some(Shown(ps[0])), ps[1..], j, from, to) {
      StepShifts(known, ps, j, from, to);
    }
  }

  ghost predicate SomeChange(ts: seq<Transition>, from: Severity, to: Severity) {
    exists t :: t in ts && ChangesTo(t, from, to)
  }

  /** The transition the first observation calls for, if any. */
  function First(id: nat, known: Option<Shape>, rev: nat, now: Shape): seq<Transition> {
    if known == None then [Transition(id, None, Active, None, now.severity, ProviderPositive, rev)]
    else if known.value.severity == now.severity then []
    else [Transition(id, Some(Active), Active, Some(known.value.severity), now.severity, SeverityChange, rev)]
  }

  lemma FirstChanges(id: nat, known: Option<Shape>, rev: nat, now: Shape, from: Severity, to: Severity)
    ensures SomeChange(First(id, known, rev, now), from, to)
       <==> from != to && known.Some? && known.value.severity == from && now.severity == to
  {
    var ts := First(id, known, rev, now);
    if from != to && known.Some? && known.value.severity == from && now.severity == to {
      assert ts[0] in ts && ChangesTo(ts[0], from, to);
    }
  }

  lemma SomeChangeBoth(a: seq<Transition>, b: seq<Transition>, from: Severity, to: Severity)
    ensures SomeChange(a + b, from, to) <==> SomeChange(a, from, to) || SomeChange(b, from, to)
  {
    assert forall t :: t in a + b <==> t in a || t in b;
  }

  lemma {:induction false} CalledChanges(
      id: nat, known: Option<Shape>, rev: nat, ps: seq<Observed>, from: Severity, to: Severity)
    ensures SomeChange(Called(id, known, rev, ps), from, to) <==> Steps(known, ps, from, to)
    decreases |ps|
  {
    if ps != [] {
      var now := Shown(ps[0]);
      var rev' := if known == Some(now) then rev else rev + 1;
      var rest := Called(id, Some(now), rev', ps[1..]);
      CalledChanges(id, Some(now), rev', ps[1..], from, to);
      StepsSplit(known, ps, from, to);
      FirstChanges(id, known, rev', now, from, to);
      assert Called(id, known, rev, ps) == First(id, known, rev', now) + rest;
      SomeChangeBoth(First(id, known, rev', now), rest, from, to);
    }
  }

  /** The transitions a completion appends for a problem. */
  function Gained(before: seq<Transition>, after: seq<Transition>, id: nat): seq<Transition>
    requires before <= after
  {
    LogOf(after[|before|..], id)
  }

  lemma {:induction false} LogAppend(a: seq<Transition>, b: seq<Transition>, id: nat)
    ensures LogOf(a + b, id) == LogOf(a, id) + LogOf(b, id)
  {
    if b == [] {
      assert a + b == a;
    } else {
      var front := b[..|b| - 1];
      LogAppend(a, front, id);
      assert (a + b)[..|a + b| - 1] == a + front;
    }
  }

  /** A completion's log of a problem is the opening, the severity changes between its
      observations and its resolution, in order, and nothing else. */
  lemma LogIsTheReading(xs: seq<Completion>, x: Completion, id: nat) returns (m: Row)
    requires x.succeeded && Complete(Run(Empty, xs), x).Some?
    requires id < |Complete(Run(Empty, xs), x).value.problems|
    ensures var db, db' := Run(Empty, xs), Complete(Run(Empty, xs), x).value;
      var s := SightingsOf(x, db'.problems[id].key);
      && db.transitions <= db'.transitions
      && (s == [] ==> RowAt(db, id) == Some(m)) && (s != [] ==> Follows(RowAt(db, id), m, x.claim, s))
      && Gained(db.transitions, db'.transitions, id)
         == Called(id, Known(RowAt(db, id)), RevisionOf(RowAt(db, id)), s) + Closing(id, x, m, s)
  {
    var db, db' := Run(Empty, xs), Complete(Run(Empty, xs), x).value;
    RunTables(xs);
    ProblemLog.RunLog(Empty, xs);
    ProblemLog.StepLog(db, x);
    m := CompletionReads(db, x, id);
    GainedIsTheRest(db.transitions, db'.transitions, id,
      Called(id, Known(RowAt(db, id)), RevisionOf(RowAt(db, id)), SightingsOf(x, m.key)),
      Closing(id, x, m, SightingsOf(x, m.key)));
  }

  lemma GainedIsTheRest(
      before: seq<Transition>, after: seq<Transition>, id: nat, s: seq<Transition>, t: seq<Transition>)
    requires before <= after && LogOf(after, id) == LogOf(before, id) + s + t
    ensures Gained(before, after, id) == s + t
  {
    assert after == before + after[|before|..];
    LogAppend(before, after[|before|..], id);
    Regroup(LogOf(before, id), s, t);
    Cancel(LogOf(before, id), LogOf(after[|before|..], id), s + t);
  }

  lemma Regroup(a: seq<Transition>, b: seq<Transition>, c: seq<Transition>)
    ensures a + b + c == a + (b + c)
  {
  }

  lemma Cancel(a: seq<Transition>, b: seq<Transition>, c: seq<Transition>)
    requires a + b == a + c
    ensures b == c
  {
    assert b == (a + b)[|a|..] && c == (a + c)[|a|..];
  }

  /** The log gains a severity change of a problem from one severity to another exactly when one
      observation of its event changed the one to the other. */
  lemma SeverityChangesAreExact(xs: seq<Completion>, x: Completion, id: nat, from: Severity, to: Severity)
    requires x.succeeded && Complete(Run(Empty, xs), x).Some?
    requires id < |Complete(Run(Empty, xs), x).value.problems|
    ensures var db, db' := Run(Empty, xs), Complete(Run(Empty, xs), x).value;
      var s := SightingsOf(x, db'.problems[id].key);
      && db.transitions <= db'.transitions
      && (SomeChange(Gained(db.transitions, db'.transitions, id), from, to)
          <==> from != to && exists j :: 0 <= j < |s| && StepAt(Known(RowAt(db, id)), s, j, from, to))
  {
    var db, db' := Run(Empty, xs), Complete(Run(Empty, xs), x).value;
    var s := SightingsOf(x, db'.problems[id].key);
    var m := LogIsTheReading(xs, x, id);
    var known := Known(RowAt(db, id));
    CalledChanges(id, known, RevisionOf(RowAt(db, id)), s, from, to);
    SomeChangeBoth(Called(id, known, RevisionOf(RowAt(db, id)), s), Closing(id, x, m, s), from, to);
  }
}
