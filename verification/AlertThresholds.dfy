/**
 What an evaluation decides, by name: which severities raise an alert, which problems a policy
 looks at, and what is written on the alerts it opens and closes.
 */
module AlertThresholds {
  import opened Common
  import opened AlertEvaluation
  import opened AlertSafety
  import P = ProblemState

  /** The severities at which a policy with this minimum raises an alert. */
  function Raising(minimum: P.Severity): set<P.Severity> {
    match minimum
    case Unknown => {P.Unknown, P.Informational, P.Warning, P.Degraded, P.Critical}
    case Informational => {P.Informational, P.Warning, P.Degraded, P.Critical}
    case Warning => {P.Warning, P.Degraded, P.Critical}
    case Degraded => {P.Degraded, P.Critical}
    case Critical => {P.Critical}
  }

  /** The policy looks at this problem and its severity raises an alert. */
  predicate Raises(p: Policy, r: P.Row) {
    && r.severity in Raising(p.minSeverity)
    && (p.resource == None || p.resource == Some(r.resource))
  }

  /** The problem is active on the source, as it is now, with evidence that may be trusted. */
  predicate Stands(r: P.Row, ctx: Context) {
    && r.state == P.Active && r.evidence == Current
    && r.key.source == ctx.source && r.key.generation == ctx.generation
  }

  lemma MatchesIsRaises(p: Policy, r: P.Row)
    ensures Matches(p, r) <==> Raises(p, r)
  {
  }

  /** A subject that was not decided at its revision has an active alert after an evaluation if
      and only if the problem stands and its severity is one of those the policy raises at, on
      the resource the policy names if it names one.  A policy pinned to another source, and an
      evaluation of a source whose evidence is not current, leave every alert as it was. */
  lemma UndecidedAlertsFollowTheSeverity(l: Ledger, ps: seq<Policy>, m: P.Db, ctx: Context, i: nat, s: nat)
    requires LedgerInv(l, m) && Numbered(m) && OneVersionEach(ps)
    requires i < |ps| && s < |m.problems| && m.problems[s].key.source == ctx.source
    requires forall e :: !Decided(l, ps[i].id, s, m.problems[s].revision, e)
    ensures Active(Evaluate(l, ps, m, ctx), ps[i].id, s) <==>
              if ctx.evidenceCurrent && (ps[i].source == None || ps[i].source == Some(ctx.source))
              then Stands(m.problems[s], ctx) && Raises(ps[i], m.problems[s])
              else Active(l, ps[i].id, s)
  {
    MatchesIsRaises(ps[i], m.problems[s]);
    if ctx.evidenceCurrent {
      if ps[i].source == None || ps[i].source == Some(ctx.source) {
        UndecidedSubjectsFollowThePolicy(l, ps, m, ctx, i, s);
      } else {
        PinnedElsewhere(l, ps, m, ctx, i, s);
      }
    }
  }

  lemma {:induction false} PinnedElsewhere(l: Ledger, ps: seq<Policy>, m: P.Db, ctx: Context, i: nat, s: nat)
    requires LedgerInv(l, m) && Numbered(m) && OneVersionEach(ps)
    requires i < |ps| && ps[i].source.Some? && ps[i].source.value != ctx.source
    ensures SamePair(l, PolicyPasses(l, ps, m, ctx), ps[i].id, s)
    decreases |ps|
  {
    var mid, tail := PolicyPass(l, ps[0], m, ctx), ps[1..];
    PassEffect(l, ps[0], m, ctx);
    if i == 0 {
      PassesEffect(mid, tail, m, ctx);
      assert forall j :: 0 <= j < |tail| ==> tail[j] == ps[j + 1];
      assert SamePair(mid, PolicyPasses(mid, tail, m, ctx), ps[0].id, s);
    } else {
      assert tail[i - 1] == ps[i] && ps[0].id != ps[i].id;
      PinnedElsewhere(mid, tail, m, ctx, i - 1, s);
      assert SamePair(l, mid, ps[i].id, s);
    }
  }

  /* ---------- what is written on an alert ---------- */

  /** A fresh alert of a policy: pinned to its version, opened for a standing problem. */
  predicate OpenedBy(p: Policy, m: P.Db, ctx: Context, a: Alert) {
    && a.subject < |m.problems|
    && var r := m.problems[a.subject];
    && Stands(r, ctx) && Raises(p, r)
    && a == Alert(p.id, p.version, a.subject, r.key.source, r.resource, r.key.generation, r.revision, r.revision, true)
  }

  /** .. or one it closed, at the problem's revision, because the problem no longer stands or no
      longer raises. */
  predicate ClosedBy(p: Policy, m: P.Db, ctx: Context, a: Alert, b: Alert) {
    && a.active && a.policy == p.id && a.source == ctx.source && a.subject < |m.problems|
    && !(Stands(m.problems[a.subject], ctx) && Raises(p, m.problems[a.subject]))
    && b == a.(active := false, currentRevision := m.problems[a.subject].revision)
  }

  /** What one policy made of the alerts from subject `from` on, standing or not. */
  predicate Settles(l: Ledger, l': Ledger, p: Policy, m: P.Db, ctx: Context, current: bool, from: nat) {
    && |l.alerts| <= |l'.alerts|
    && (forall a :: 0 <= a < |l.alerts| ==>
          l'.alerts[a] == l.alerts[a]
          || (ClosedBy(p, m, ctx, l.alerts[a], l'.alerts[a]) && l.alerts[a].subject >= from
              && IsCurrent(m, ctx, l.alerts[a].subject) == current))
    && (forall a :: |l.alerts| <= a < |l'.alerts| ==>
          OpenedBy(p, m, ctx, l'.alerts[a]) && l'.alerts[a].subject >= from && current)
  }

  lemma SettleSettles(l: Ledger, p: Policy, m: P.Db, ctx: Context, s: nat)
    requires Numbered(m) && s < |m.problems|
    ensures var l' := Settle(l, p, m, ctx, s);
      && |l.alerts| <= |l'.alerts|
      && (forall a :: 0 <= a < |l.alerts| ==>
            l'.alerts[a] == l.alerts[a]
            || (ClosedBy(p, m, ctx, l.alerts[a], l'.alerts[a]) && l.alerts[a].subject == s))
      && (forall a :: |l.alerts| <= a < |l'.alerts| ==>
            OpenedBy(p, m, ctx, l'.alerts[a]) && l'.alerts[a].subject == s && IsCurrent(m, ctx, s))
  {
    MatchesIsRaises(p, m.problems[s]);
  }

  lemma {:induction false} SettleFromSettles(l: Ledger, p: Policy, m: P.Db, ctx: Context, current: bool, from: nat)
    requires Numbered(m) && from <= |m.problems|
    ensures Settles(l, SettleFrom(l, p, m, ctx, current, from), p, m, ctx, current, from)
    decreases |m.problems| - from
  {
    if from < |m.problems| {
      var mid := if IsCurrent(m, ctx, from) == current then Settle(l, p, m, ctx, from) else l;
      SettleSettles(l, p, m, ctx, from);
      SettleFromSettles(mid, p, m, ctx, current, from + 1);
    }
  }

  /** What an evaluation made of the alerts: each old one is as it was or closed by its policy,
      each new one was opened by a policy. */
  ghost predicate Written(l: Ledger, l': Ledger, ps: seq<Policy>, m: P.Db, ctx: Context) {
    && |l.alerts| <= |l'.alerts|
    && (forall a :: 0 <= a < |l.alerts| ==>
          l'.alerts[a] == l.alerts[a] || exists p :: p in ps && ClosedBy(p, m, ctx, l.alerts[a], l'.alerts[a]))
    && (forall a :: |l.alerts| <= a < |l'.alerts| ==> exists p :: p in ps && OpenedBy(p, m, ctx, l'.alerts[a]))
  }

  lemma PassWrites(l: Ledger, p: Policy, m: P.Db, ctx: Context)
    requires Numbered(m)
    ensures var l' := PolicyPass(l, p, m, ctx);
      && |l.alerts| <= |l'.alerts|
      && (forall a :: 0 <= a < |l.alerts| ==>
            l'.alerts[a] == l.alerts[a] || ClosedBy(p, m, ctx, l.alerts[a], l'.alerts[a]))
      && (forall a :: |l.alerts| <= a < |l'.alerts| ==> OpenedBy(p, m, ctx, l'.alerts[a]))
  {
    if Admitted(p, ctx) {
      SettleFromSettles(l, p, m, ctx, true, 0);
      SettleFromSettles(SettleFrom(l, p, m, ctx, true, 0), p, m, ctx, false, 0);
    }
  }

  lemma {:induction false} PassesWrite(l: Ledger, ps: seq<Policy>, m: P.Db, ctx: Context)
    requires Numbered(m) && OneVersionEach(ps)
    ensures Written(l, PolicyPasses(l, ps, m, ctx), ps, m, ctx)
    decreases |ps|
  {
    if ps != [] {
      var mid, l', tail := PolicyPass(l, ps[0], m, ctx), PolicyPasses(l, ps, m, ctx), ps[1..];
      PassWrites(l, ps[0], m, ctx);
      PassesWrite(mid, tail, m, ctx);
      assert forall p :: p in tail ==> p in ps && p.id != ps[0].id;
      forall a | 0 <= a < |l.alerts| && l'.alerts[a] != l.alerts[a]
        ensures exists p :: p in ps && ClosedBy(p, m, ctx, l.alerts[a], l'.alerts[a])
      {
        if mid.alerts[a] == l.alerts[a] {
          var p :| p in tail && ClosedBy(p, m, ctx, mid.alerts[a], l'.alerts[a]);
        } else {
          assert ClosedBy(ps[0], m, ctx, l.alerts[a], mid.alerts[a]);
        }
      }
      forall a | |l.alerts| <= a < |l'.alerts| ensures exists p :: p in ps && OpenedBy(p, m, ctx, l'.alerts[a]) {
        if a < |mid.alerts| {
          assert OpenedBy(ps[0], m, ctx, mid.alerts[a]) && l'.alerts[a] == mid.alerts[a];
        } else {
          var p :| p in tail && OpenedBy(p, m, ctx, l'.alerts[a]);
        }
      }
    }
  }

  /** After any run, an evaluation opens alerts only for standing problems that raise, stamped
      with the policy's version and the problem's resource, generation and revision, and closes
      only alerts whose problem no longer stands or no longer raises, at its present revision. */
  lemma AlertsAreStamped(es: seq<Event>, ps: seq<Policy>, ctx: Context)
    requires OneVersionEach(ps)
    ensures var w := Run(Start, es);
      Written(w.ledger, Step(w, EvaluatePolicies(ps, ctx)).ledger, ps, w.monitoring, ctx)
  {
    RunWorld(Start, es);
    PassesWrite(Run(Start, es).ledger, ps, Run(Start, es).monitoring, ctx);
  }
}
