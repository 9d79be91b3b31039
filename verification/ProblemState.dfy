/**
 The problem projection: a poll result, the recovery evidence read beside it and the
 completeness of the snapshot are merged into stable problem rows, an append-only
 transition log and one domain event per transition.

 A problem's opaque id is its position in `problems`; rows are never deleted.
 */
module ProblemState {
  import opened Common

  datatype Severity = Unknown | Informational | Warning | Degraded | Critical

  datatype State = Active | Resolved

  /** The scoped provider identity a problem is bound to. */
  datatype Key = Key(source: nat, generation: nat, event: nat)

  datatype Binding = Binding(problem: nat, resource: nat, trigger: nat)

  datatype Row = Row(
    key: Key,
    resource: nat,
    state: State,
    severity: Severity,
    summary: string,
    acknowledged: bool,
    metadata: map<string, string>,
    openedAt: int,
    resolvedAt: Option<int>,
    lastConfirmedAt: int,
    evidence: Evidence,
    revision: nat,
    pollEpoch: int,
    pollGeneration: int)

  datatype Reason = ProviderPositive | SeverityChange | ProviderRecovery | AuthoritativeNegative

  datatype Transition = Transition(
    problem: nat,
    fromState: Option<State>,
    toState: State,
    fromSeverity: Option<Severity>,
    toSeverity: Severity,
    reason: Reason,
    revision: nat)

  datatype DomainEvent = DomainEvent(
    subject: nat, fromState: Option<State>, toState: State,
    fromSeverity: Option<Severity>, toSeverity: Severity, reason: Reason, revision: nat)

  datatype Db = Db(
    bindings: map<Key, Binding>,
    problems: seq<Row>,
    transitions: seq<Transition>,
    outbox: seq<DomainEvent>)

  datatype Claim = Claim(source: nat, generation: nat, pollEpoch: int, pollGeneration: int)

  /** One problem of a poll result, already normalized. */
  datatype Observed = Observed(
    event: nat, resource: nat, severity: Severity, summary: string,
    acknowledged: bool, metadata: map<string, string>, openedAt: int)

  datatype Recovery = Recovery(event: nat, recoveryEvent: nat, clock: int)

  /** What a completion is given: the result, the raw rows as event -> trigger, the recovery
      evidence, and the resources that are in scope with current evidence at that moment. */
  datatype Completion = Completion(
    claim: Claim,
    succeeded: bool,
    complete: bool,
    problems: seq<Observed>,
    triggers: map<nat, nat>,
    recoveries: seq<Recovery>,
    currentResources: set<nat>,
    now: int)

  function KeyOf(c: Claim, event: nat): Key { Key(c.source, c.generation, event) }

  predicate InScope(c: Claim, k: Key) { k.source == c.source && k.generation == c.generation }

  function EventOf(t: Transition): DomainEvent {
    DomainEvent(t.problem, t.fromState, t.toState, t.fromSeverity, t.toSeverity, t.reason, t.revision)
  }

  /* ---------- the transaction, step by step; None is a raised error ---------- */

  /** Append a transition and its domain event in the same transaction. */
  function Emit(db: Db, t: Transition): Db {
    db.(transitions := db.transitions + [t], outbox := db.outbox + [EventOf(t)])
  }

  function NewRow(c: Claim, p: Observed): Row {
    Row(KeyOf(c, p.event), p.resource, Active, p.severity, p.summary, p.acknowledged, p.metadata,
        p.openedAt, None, p.openedAt, Current, 1, c.pollEpoch, c.pollGeneration)
  }

  predicate Changed(r: Row, p: Observed) {
    r.severity != p.severity || r.summary != p.summary || r.acknowledged != p.acknowledged || r.metadata != p.metadata
  }

  function Max(a: int, b: int): int { if a < b then b else a }

  /** One returned problem; a problem without a raw row is skipped. */
  function PersistOne(db: Db, x: Completion, p: Observed): Option<Db> {
    if p.event !in x.triggers then Some(db)
    else if p.resource !in x.currentResources then None
    else
      var k := KeyOf(x.claim, p.event);
      if k !in db.bindings then
        var id := |db.problems|;
        Some(Emit(db.(bindings := db.bindings[k := Binding(id, p.resource, x.triggers[p.event])],
                      problems := db.problems + [NewRow(x.claim, p)]),
                  Transition(id, None, Active, None, p.severity, ProviderPositive, 1)))
      else
        var b := db.bindings[k];
        if b.resource != p.resource || b.trigger != x.triggers[p.event] || b.problem >= |db.problems| then None
        else
          var r := db.problems[b.problem];
          if r.state == Resolved then None
          else if Changed(r, p) then
            var r' := r.(severity := p.severity, summary := p.summary, lastConfirmedAt := p.openedAt,
                         evidence := Current, revision := r.revision + 1, pollEpoch := x.claim.pollEpoch,
                         pollGeneration := x.claim.pollGeneration, acknowledged := p.acknowledged,
                         metadata := p.metadata);
            var db' := db.(problems := db.problems[b.problem := r']);
            Some(if r.severity == p.severity then db'
                 else Emit(db', Transition(b.problem, Some(Active), Active, Some(r.severity), p.severity,
                                           SeverityChange, r'.revision)))
          else
            Some(db.(problems := db.problems[b.problem :=
              r.(lastConfirmedAt := Max(r.lastConfirmedAt, p.openedAt), evidence := Current,
                 pollEpoch := x.claim.pollEpoch, pollGeneration := x.claim.pollGeneration)]))
  }

  function PersistAll(db: Db, x: Completion, ps: seq<Observed>): Option<Db>
    decreases |ps|
  {
    if ps == [] then Some(db)
    else
      var r := PersistOne(db, x, ps[0]);
      if r.None? then None else PersistAll(r.value, x, ps[1..])
  }

  function ResolveRow(db: Db, c: Claim, id: nat, at: int, reason: Reason): Db
    requires id < |db.problems|
  {
    var r := db.problems[id];
    Emit(db.(problems := db.problems[id := r.(state := Resolved, resolvedAt := Some(at), lastConfirmedAt := at,
                                              evidence := Current, revision := r.revision + 1,
                                              pollEpoch := c.pollEpoch, pollGeneration := c.pollGeneration)]),
         Transition(id, Some(Active), Resolved, Some(r.severity), r.severity, reason, r.revision + 1))
  }

  function RecoverOne(db: Db, c: Claim, rec: Recovery): Option<Db> {
    var k := KeyOf(c, rec.event);
    if k !in db.bindings || db.bindings[k].problem >= |db.problems| then Some(db)
    else
      var id := db.bindings[k].problem;
      var r := db.problems[id];
      if r.state == Active then Some(ResolveRow(db, c, id, rec.clock, ProviderRecovery))
      else if r.resolvedAt.Some? && r.resolvedAt.value != rec.clock then None
      else Some(db)
  }

  function RecoverAll(db: Db, c: Claim, recs: seq<Recovery>): Option<Db>
    decreases |recs|
  {
    if recs == [] then Some(db)
    else
      var r := RecoverOne(db, c, recs[0]);
      if r.None? then None else RecoverAll(r.value, c, recs[1..])
  }

  predicate Omitted(c: Claim, seen: set<nat>, r: Row) {
    InScope(c, r.key) && r.state == Active && r.key.event !in seen
  }

  /** Complete snapshot: resolve the unreturned actives from row `from` on. */
  function OmitFrom(db: Db, c: Claim, seen: set<nat>, now: int, from: nat): Db
    requires from <= |db.problems|
    decreases |db.problems| - from
  {
    if from == |db.problems| then db
    else if Omitted(c, seen, db.problems[from]) then
      OmitFrom(ResolveRow(db, c, from, now, AuthoritativeNegative), c, seen, now, from + 1)
    else
      OmitFrom(db, c, seen, now, from + 1)
  }

  /** Incomplete snapshot: the unreturned actives only lose their current evidence. */
  function DegradeOmitted(db: Db, c: Claim, seen: set<nat>): Db {
    db.(problems := seq(|db.problems|, i requires 0 <= i < |db.problems| =>
      var r := db.problems[i];
      if Omitted(c, seen, r) then r.(evidence := EvidenceReconciliation) else r))
  }

  /** Events bound by this completion: returned problems that have a raw row. */
  function Bindable(ps: seq<Observed>, triggers: map<nat, nat>): set<nat> {
    if ps == [] then {}
    else (if ps[0].event in triggers then {ps[0].event} else {}) + Bindable(ps[1..], triggers)
  }

  function EventsOf(recs: seq<Recovery>): set<nat> {
    if recs == [] then {} else {recs[0].event} + EventsOf(recs[1..])
  }

  function Seen(x: Completion): set<nat> { Bindable(x.problems, x.triggers) }

  function Recovered(x: Completion): set<nat> { EventsOf(x.recoveries) }

  function Complete(db: Db, x: Completion): Option<Db> {
    if !x.succeeded then Some(db)
    else
      var p := PersistAll(db, x, x.problems);
      if p.None? then None
      else
        var r := RecoverAll(p.value, x.claim, x.recoveries);
        if r.None? then None
        else Some(if x.complete then OmitFrom(r.value, x.claim, Seen(x), x.now, 0)
                  else DegradeOmitted(r.value, x.claim, Seen(x)))
  }

  function Step(db: Db, x: Completion): Db {
    var r := Complete(db, x);
    if r.Some? then r.value else db
  }

  function Run(db: Db, xs: seq<Completion>): Db
    decreases |xs|
  {
    if xs == [] then db else Run(Step(db, xs[0]), xs[1..])
  }

  const Empty := Db(map[], [], [], [])

  /* ---------- the projection after a completion ---------- */

  /** Bindings and problem rows are in one-to-one correspondence. */
  ghost predicate Bound(db: Db) {
    && (forall k :: k in db.bindings ==>
          db.bindings[k].problem < |db.problems| && db.problems[db.bindings[k].problem].key == k)
    && (forall i :: 0 <= i < |db.problems| ==>
          db.problems[i].key in db.bindings && db.bindings[db.problems[i].key].problem == i)
  }

  /** The state of the problem bound to a provider event. */
  function StateAt(db: Db, k: Key): Option<State> {
    if k in db.bindings && db.bindings[k].problem < |db.problems|
    then Some(db.problems[db.bindings[k].problem].state) else None
  }

  /** Rewriting a row in place keeps every binding and every other problem's state. */
  lemma RewriteRow(db: Db, id: nat, r: Row, db': Db)
    requires Bound(db) && id < |db.problems| && r.key == db.problems[id].key
    requires db'.bindings == db.bindings && db'.problems == db.problems[id := r]
    ensures Bound(db')
    ensures forall k :: StateAt(db', k) == if k == r.key then Some(r.state) else StateAt(db, k)
  {
  }

  lemma AddRow(db: Db, r: Row, b: Binding, db': Db)
    requires Bound(db) && r.key !in db.bindings && b.problem == |db.problems|
    requires db'.bindings == db.bindings[r.key := b] && db'.problems == db.problems + [r]
    ensures Bound(db')
    ensures forall k :: StateAt(db', k) == if k == r.key then Some(r.state) else StateAt(db, k)
  {
  }

  lemma PersistOneEffect(db: Db, x: Completion, p: Observed)
    requires Bound(db) && PersistOne(db, x, p).Some?
    ensures var db' := PersistOne(db, x, p).value;
            && Bound(db')
            && (forall k :: StateAt(db', k) ==
                  if k == KeyOf(x.claim, p.event) && p.event in x.triggers then Some(Active) else StateAt(db, k))
            && (forall k :: StateAt(db, k) == Some(Resolved) ==> StateAt(db', k) == Some(Resolved))
  {
    var k, db' := KeyOf(x.claim, p.event), PersistOne(db, x, p).value;
    if p.event in x.triggers {
      if k in db.bindings {
        var id := db.bindings[k].problem;
        RewriteRow(db, id, db'.problems[id], db');
      } else {
        AddRow(db, NewRow(x.claim, p), db'.bindings[k], db');
      }
    }
  }

  lemma {:induction false} PersistAllEffect(db: Db, x: Completion, ps: seq<Observed>)
    requires Bound(db) && PersistAll(db, x, ps).Some?
    ensures var db' := PersistAll(db, x, ps).value;
            && Bound(db')
            && (forall k :: StateAt(db', k) ==
                  if InScope(x.claim, k) && k.event in Bindable(ps, x.triggers) then Some(Active) else StateAt(db, k))
            && (forall k :: StateAt(db, k) == Some(Resolved) ==> StateAt(db', k) == Some(Resolved))
    decreases |ps|
  {
    if ps != [] {
      PersistOneEffect(db, x, ps[0]);
      PersistAllEffect(PersistOne(db, x, ps[0]).value, x, ps[1..]);
    }
  }

  lemma RecoverOneEffect(db: Db, c: Claim, rec: Recovery)
    requires Bound(db) && RecoverOne(db, c, rec).Some?
    ensures var db' := RecoverOne(db, c, rec).value;
            && Bound(db')
            && (forall k :: StateAt(db', k) ==
                  if StateAt(db, k).Some? && k == KeyOf(c, rec.event) then Some(Resolved) else StateAt(db, k))
  {
    var k, db' := KeyOf(c, rec.event), RecoverOne(db, c, rec).value;
    if k in db.bindings {
      var id := db.bindings[k].problem;
      RewriteRow(db, id, db'.problems[id], db');
    }
  }

  lemma {:induction false} RecoverAllEffect(db: Db, c: Claim, recs: seq<Recovery>)
    requires Bound(db) && RecoverAll(db, c, recs).Some?
    ensures var db' := RecoverAll(db, c, recs).value;
            && Bound(db')
            && (forall k :: StateAt(db', k) ==
                  if StateAt(db, k).Some? && InScope(c, k) && k.event in EventsOf(recs)
                  then Some(Resolved) else StateAt(db, k))
    decreases |recs|
  {
    if recs != [] {
      RecoverOneEffect(db, c, recs[0]);
      RecoverAllEffect(RecoverOne(db, c, recs[0]).value, c, recs[1..]);
    }
  }

  lemma {:induction false} OmitEffect(db: Db, c: Claim, seen: set<nat>, now: int, from: nat)
    requires Bound(db) && from <= |db.problems|
    requires forall i :: 0 <= i < from ==> !Omitted(c, seen, db.problems[i])
    ensures var db' := OmitFrom(db, c, seen, now, from);
            && Bound(db')
            && (forall k :: StateAt(db', k) ==
                  if InScope(c, k) && StateAt(db, k) == Some(Active) && k.event !in seen then Some(Resolved)
                  else StateAt(db, k))
    decreases |db.problems| - from
  {
    if from < |db.problems| {
      if Omitted(c, seen, db.problems[from]) {
        var db' := ResolveRow(db, c, from, now, AuthoritativeNegative);
        RewriteRow(db, from, db'.problems[from], db');
        OmitEffect(ResolveRow(db, c, from, now, AuthoritativeNegative), c, seen, now, from + 1);
      } else {
        OmitEffect(db, c, seen, now, from + 1);
      }
    }
  }

  lemma DegradeEffect(db: Db, c: Claim, seen: set<nat>)
    requires Bound(db)
    ensures Bound(DegradeOmitted(db, c, seen))
    ensures forall k :: StateAt(DegradeOmitted(db, c, seen), k) == StateAt(db, k)
  {
  }

  /** The exact projection a committed completion leaves, for every bound event.  On a
      complete snapshot an event of the claim's scope is active iff it was returned and not
      recovered.  On an incomplete one nothing resolves without recovery evidence.  Other
      sources and generations are untouched. */
  lemma CompletionEffect(db: Db, x: Completion, k: Key)
    requires Bound(db) && x.succeeded && Complete(db, x).Some?
    ensures var db' := Complete(db, x).value;
            && Bound(db')
            && (!InScope(x.claim, k) ==> StateAt(db', k) == StateAt(db, k))
            && (InScope(x.claim, k) && x.complete ==>
                  (StateAt(db', k) == Some(Active) <==> k.event in Seen(x) && k.event !in Recovered(x)))
            && (InScope(x.claim, k) && !x.complete ==>
                  (StateAt(db', k) == Some(Active) <==>
                     (StateAt(db, k) == Some(Active) || k.event in Seen(x)) && k.event !in Recovered(x)))
            && (StateAt(db, k) == Some(Resolved) ==> StateAt(db', k) == Some(Resolved))
  {
    PersistAllEffect(db, x, x.problems);
    var p := PersistAll(db, x, x.problems).value;
    RecoverAllEffect(p, x.claim, x.recoveries);
    var r := RecoverAll(p, x.claim, x.recoveries).value;
    if x.complete { OmitEffect(r, x.claim, Seen(x), x.now, 0); } else { DegradeEffect(r, x.claim, Seen(x)); }
  }
}
