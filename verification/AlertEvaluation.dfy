/**
 Alert policy evaluation: each admitted policy is settled against every problem of a
 source, with a decision ledger that makes replay idempotent.

 An alert's opaque id is its position in `alerts`; a subject is a problem's position.
 */
module AlertEvaluation {
  import opened Common
  import P = ProblemState

  /** An effective, enabled, unsuperseded problem policy version. */
  datatype Policy = Policy(id: nat, version: nat, minSeverity: P.Severity, source: Option<nat>, resource: Option<nat>)

  datatype Effect = Create | Resolve

  datatype Alert = Alert(
    policy: nat, version: nat, subject: nat, source: nat, resource: nat, generation: nat,
    createdRevision: nat, currentRevision: nat, active: bool)

  datatype Decision = Decision(policy: nat, version: nat, subject: nat, revision: nat, effect: Effect, alert: nat)

  datatype AlertTransition = AlertTransition(
    alert: nat, policy: nat, version: nat, wasActive: bool, active: bool, revision: nat)

  datatype Ledger = Ledger(alerts: seq<Alert>, decisions: seq<Decision>, transitions: seq<AlertTransition>)

  /** The source row an evaluation reads. */
  datatype Context = Context(source: nat, generation: nat, evidenceCurrent: bool)

  const NoAlerts := Ledger([], [], [])

  function SeverityRank(s: P.Severity): nat {
    match s
    case Unknown => 0
    case Informational => 1
    case Warning => 2
    case Degraded => 3
    case Critical => 4
  }

  predicate Admitted(p: Policy, ctx: Context) { p.source == None || p.source == Some(ctx.source) }

  predicate Matches(p: Policy, r: P.Row) {
    SeverityRank(r.severity) >= SeverityRank(p.minSeverity) && (p.resource == None || p.resource == Some(r.resource))
  }

  /** A current problem: active, current evidence, the source's active generation. */
  predicate IsCurrent(m: P.Db, ctx: Context, s: nat)
    requires s < |m.problems|
  {
    var r := m.problems[s];
    r.key.source == ctx.source && r.state == P.Active && r.evidence == Current && r.key.generation == ctx.generation
  }

  predicate OpenFor(a: Alert, policy: nat, source: nat, subject: nat) {
    a.active && a.policy == policy && a.source == source && a.subject == subject
  }

  function FindOpen(alerts: seq<Alert>, policy: nat, source: nat, subject: nat): (o: Option<nat>)
    ensures o.Some? ==> o.value < |alerts| && OpenFor(alerts[o.value], policy, source, subject)
    ensures o == None ==> forall a :: 0 <= a < |alerts| ==> !OpenFor(alerts[a], policy, source, subject)
  {
    if alerts == [] then None
    else
      var n := |alerts| - 1;
      if OpenFor(alerts[n], policy, source, subject) then Some(n)
      else
        var o := FindOpen(alerts[..n], policy, source, subject);
        assert o == None ==> forall a :: 0 <= a < n ==> alerts[a] == alerts[..n][a];
        o
  }

  predicate Decided(l: Ledger, policy: nat, subject: nat, revision: nat, effect: Effect) {
    exists j :: 0 <= j < |l.decisions| && l.decisions[j].policy == policy && l.decisions[j].subject == subject
                && l.decisions[j].revision == revision && l.decisions[j].effect == effect
  }

  function CreateAlert(l: Ledger, p: Policy, ctx: Context, r: P.Row, s: nat): Ledger {
    var id := |l.alerts|;
    Ledger(l.alerts + [Alert(p.id, p.version, s, ctx.source, r.resource, ctx.generation, r.revision, r.revision, true)],
           l.decisions + [Decision(p.id, p.version, s, r.revision, Create, id)],
           l.transitions + [AlertTransition(id, p.id, p.version, false, true, r.revision)])
  }

  /** Resolution is recorded under the version the alert is pinned to. */
  function ResolveAlert(l: Ledger, id: nat, revision: nat): Ledger
    requires id < |l.alerts|
  {
    var a := l.alerts[id];
    Ledger(l.alerts[id := a.(active := false, currentRevision := revision)],
           l.decisions + [Decision(a.policy, a.version, a.subject, revision, Resolve, id)],
           l.transitions + [AlertTransition(id, a.policy, a.version, true, false, revision)])
  }

  function SubjectRevision(m: P.Db, s: nat): nat
    requires s < |m.problems|
  {
    if m.problems[s].revision == 0 then 1 else m.problems[s].revision
  }

  /** One policy against one subject. */
  function Settle(l: Ledger, p: Policy, m: P.Db, ctx: Context, s: nat): Ledger
    requires s < |m.problems|
  {
    var r := m.problems[s];
    var o := FindOpen(l.alerts, p.id, ctx.source, s);
    if IsCurrent(m, ctx, s) then
      if Matches(p, r) && o == None then
        if Decided(l, p.id, s, r.revision, Create) then l else CreateAlert(l, p, ctx, r, s)
      else if !Matches(p, r) && o.Some? then
        if Decided(l, p.id, s, r.revision, Resolve) then l else ResolveAlert(l, o.value, r.revision)
      else l
    else if o.Some? && !Decided(l, p.id, s, SubjectRevision(m, s), Resolve) then
      ResolveAlert(l, o.value, SubjectRevision(m, s))
    else l
  }

  /** The current subjects, or the disappeared ones, from `from` on. */
  function SettleFrom(l: Ledger, p: Policy, m: P.Db, ctx: Context, current: bool, from: nat): Ledger
    requires from <= |m.problems|
    decreases |m.problems| - from
  {
    if from == |m.problems| then l
    else SettleFrom(if IsCurrent(m, ctx, from) == current then Settle(l, p, m, ctx, from) else l,
                    p, m, ctx, current, from + 1)
  }

  /** One policy: first the current problems, then the alerts whose problem disappeared. */
  function PolicyPass(l: Ledger, p: Policy, m: P.Db, ctx: Context): Ledger {
    if Admitted(p, ctx) then SettleFrom(SettleFrom(l, p, m, ctx, true, 0), p, m, ctx, false, 0) else l
  }

  function PolicyPasses(l: Ledger, ps: seq<Policy>, m: P.Db, ctx: Context): Ledger
    decreases |ps|
  {
    if ps == [] then l else PolicyPasses(PolicyPass(l, ps[0], m, ctx), ps[1..], m, ctx)
  }

  function Evaluate(l: Ledger, ps: seq<Policy>, m: P.Db, ctx: Context): Ledger {
    if ctx.evidenceCurrent then PolicyPasses(l, ps, m, ctx) else l
  }

  /** A policy has one effective version. */
  predicate OneVersionEach(ps: seq<Policy>) {
    forall i, j :: 0 <= i < j < |ps| ==> ps[i].id != ps[j].id
  }

  /* ---------- the ledger invariant ---------- */

  /** An independent reading of the decisions of one (policy, subject): creates and resolves
      must alternate, a resolve must close the alert the create opened, under the version it
      was opened with and at no earlier revision. */
  datatype Cell = Idle | Open(alert: nat, version: nat, revision: nat) | Broken

  function Follow(c: Cell, d: Decision): Cell {
    match (c, d.effect)
    case (Idle, Create) => Open(d.alert, d.version, d.revision)
    case (Open(a, v, r), Resolve) => if d.alert == a && d.version == v && r <= d.revision then Idle else Broken
    case _ => Broken
  }

  function Replay(ds: seq<Decision>, policy: nat, subject: nat): Cell {
    if ds == [] then Idle
    else
      var prior := Replay(ds[..|ds| - 1], policy, subject);
      var d := ds[|ds| - 1];
      if d.policy == policy && d.subject == subject then Follow(prior, d) else prior
  }

  lemma ReplaySnoc(ds: seq<Decision>, d: Decision, policy: nat, subject: nat)
    ensures Replay(ds + [d], policy, subject) ==
              if d.policy == policy && d.subject == subject then Follow(Replay(ds, policy, subject), d)
              else Replay(ds, policy, subject)
  {
    assert (ds + [d])[..|ds|] == ds;
  }

  predicate AlertOk(l: Ledger, m: P.Db, a: nat)
    requires a < |l.alerts|
  {
    var x := l.alerts[a];
    && x.subject < |m.problems|
    && x.source == m.problems[x.subject].key.source
    && x.createdRevision <= x.currentRevision <= SubjectRevision(m, x.subject)
    && (x.active ==> Replay(l.decisions, x.policy, x.subject) == Open(a, x.version, x.createdRevision))
  }

  /** The ledger never breaks, and an open cell is an active alert. */
  predicate CellOk(l: Ledger, policy: nat, subject: nat) {
    match Replay(l.decisions, policy, subject)
    case Idle => true
    case Open(a, v, r) => a < |l.alerts| && l.alerts[a].active && l.alerts[a].policy == policy
                          && l.alerts[a].subject == subject
                          && l.alerts[a].version == v && l.alerts[a].createdRevision == r
    case Broken => false
  }

  predicate DecisionsDistinct(ds: seq<Decision>) {
    forall i, j :: 0 <= i < j < |ds| ==>
      !(ds[i].policy == ds[j].policy && ds[i].subject == ds[j].subject
        && ds[i].revision == ds[j].revision && ds[i].effect == ds[j].effect)
  }

  /** One lifecycle transition per decision, with the same alert, version and revision. */
  predicate TransitionsMatch(l: Ledger) {
    && |l.transitions| == |l.decisions|
    && (forall j :: 0 <= j < |l.decisions| ==>
          l.transitions[j] == AlertTransition(l.decisions[j].alert, l.decisions[j].policy, l.decisions[j].version,
                                              l.decisions[j].effect == Resolve, l.decisions[j].effect == Create,
                                              l.decisions[j].revision))
  }

  ghost predicate LedgerInv(l: Ledger, m: P.Db) {
    && (forall a :: 0 <= a < |l.alerts| ==> AlertOk(l, m, a))
    && (forall p: nat, s: nat :: CellOk(l, p, s))
    && DecisionsDistinct(l.decisions)
    && TransitionsMatch(l)
  }

  /** A (policy, subject) pair has an active alert. */
  predicate Active(l: Ledger, policy: nat, subject: nat) {
    Replay(l.decisions, policy, subject).Open?
  }

  /** In a valid ledger that is exactly what the open-alert query finds. */
  lemma OpenIsFound(l: Ledger, m: P.Db, policy: nat, source: nat, s: nat)
    requires LedgerInv(l, m) && s < |m.problems|
    ensures FindOpen(l.alerts, policy, source, s) ==
              if Active(l, policy, s) && m.problems[s].key.source == source
              then Some(Replay(l.decisions, policy, s).alert) else None
  {
    assert CellOk(l, policy, s);
    var o := FindOpen(l.alerts, policy, source, s);
    if o.Some? { assert AlertOk(l, m, o.value); }
    if Active(l, policy, s) { assert AlertOk(l, m, Replay(l.decisions, policy, s).alert); }
  }

  lemma CreateKeeps(l: Ledger, p: Policy, m: P.Db, ctx: Context, s: nat)
    requires LedgerInv(l, m) && s < |m.problems| && IsCurrent(m, ctx, s)
    requires m.problems[s].revision > 0
    requires !Active(l, p.id, s) && !Decided(l, p.id, s, m.problems[s].revision, Create)
    ensures LedgerInv(CreateAlert(l, p, ctx, m.problems[s], s), m)
  {
    var l' := CreateAlert(l, p, ctx, m.problems[s], s);
    var d := l'.decisions[|l.decisions|];
    forall q: nat, t: nat ensures CellOk(l', q, t) {
      ReplaySnoc(l.decisions, d, q, t);
      assert CellOk(l, q, t);
    }
    forall a | 0 <= a < |l'.alerts| ensures AlertOk(l', m, a) {
      ReplaySnoc(l.decisions, d, l'.alerts[a].policy, l'.alerts[a].subject);
      if a < |l.alerts| { assert AlertOk(l, m, a); }
      assert CellOk(l, p.id, s);
    }
  }

  lemma ResolveKeeps(l: Ledger, m: P.Db, id: nat, revision: nat)
    requires LedgerInv(l, m) && id < |l.alerts| && l.alerts[id].active
    requires l.alerts[id].subject < |m.problems| && revision == SubjectRevision(m, l.alerts[id].subject)
    requires !Decided(l, l.alerts[id].policy, l.alerts[id].subject, revision, Resolve)
    ensures LedgerInv(ResolveAlert(l, id, revision), m)
  {
    var l' := ResolveAlert(l, id, revision);
    var d := l'.decisions[|l.decisions|];
    assert AlertOk(l, m, id);
    forall q: nat, t: nat ensures CellOk(l', q, t) {
      ReplaySnoc(l.decisions, d, q, t);
      assert CellOk(l, q, t);
    }
    forall a | 0 <= a < |l'.alerts| ensures AlertOk(l', m, a) {
      ReplaySnoc(l.decisions, d, l'.alerts[a].policy, l'.alerts[a].subject);
      assert AlertOk(l, m, a);
    }
  }
}
