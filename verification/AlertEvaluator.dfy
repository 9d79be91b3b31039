/**
 The evaluator's nested loops over mutable tables, refining AlertEvaluation.Evaluate.
 */
module AlertEvaluator {
  import opened Common
  import opened AlertEvaluation
  import opened AlertSafety
  import opened AlertThresholds
  import P = ProblemState

  /** Decisions of one effect; a pass adds as many as its counter says. */
  function Effects(ds: seq<Decision>, e: Effect): nat {
    if ds == [] then 0 else Effects(ds[..|ds| - 1], e) + (if ds[|ds| - 1].effect == e then 1 else 0)
  }

  lemma EffectsSnoc(ds: seq<Decision>, d: Decision, e: Effect)
    ensures Effects(ds + [d], e) == Effects(ds, e) + (if d.effect == e then 1 else 0)
  {
    assert (ds + [d])[..|ds|] == ds;
  }

  /** A current subject is skipped when its effect at this revision was decided before. */
  predicate Skipped(l: Ledger, p: Policy, m: P.Db, ctx: Context, s: nat)
    requires s < |m.problems|
  {
    var r, o := m.problems[s], FindOpen(l.alerts, p.id, ctx.source, s);
    && IsCurrent(m, ctx, s)
    && (|| (Matches(p, r) && o == None && Decided(l, p.id, s, r.revision, Create))
        || (!Matches(p, r) && o.Some? && Decided(l, p.id, s, r.revision, Resolve)))
  }

  /** The subjects a policy skips, from `from` on, as the pass goes along. */
  function SkipsFrom(l: Ledger, p: Policy, m: P.Db, ctx: Context, from: nat): nat
    requires from <= |m.problems|
    decreases |m.problems| - from
  {
    if from == |m.problems| then 0
    else (if Skipped(l, p, m, ctx, from) then 1 else 0)
         + SkipsFrom(if IsCurrent(m, ctx, from) then Settle(l, p, m, ctx, from) else l, p, m, ctx, from + 1)
  }

  function Skips(l: Ledger, ps: seq<Policy>, m: P.Db, ctx: Context): nat
    decreases |ps|
  {
    if ps == [] then 0
    else (if Admitted(ps[0], ctx) then SkipsFrom(l, ps[0], m, ctx, 0) else 0)
         + Skips(PolicyPass(l, ps[0], m, ctx), ps[1..], m, ctx)
  }

  class Evaluator {
    var alerts: seq<Alert>
    var decisions: seq<Decision>
    var transitions: seq<AlertTransition>

    function View(): Ledger
      reads this
    {
      Ledger(alerts, decisions, transitions)
    }

    /** Since `before`, so many creates and resolves were decided. */
    predicate Counted(before: seq<Decision>, created: nat, resolved: nat)
      reads this
    {
      && Effects(decisions, AlertEvaluation.Create) == Effects(before, AlertEvaluation.Create) + created
      && Effects(decisions, Resolve) == Effects(before, Resolve) + resolved
    }

    constructor ()
      ensures View() == NoAlerts
    {
      alerts, decisions, transitions := [], [], [];
    }

    method Create(p: Policy, ctx: Context, r: P.Row, subject: nat)
      modifies this
      ensures View() == CreateAlert(old(View()), p, ctx, r, subject)
      ensures Counted(old(decisions), 1, 0)
    {
      var id := |alerts|;
      alerts := alerts
        + [Alert(p.id, p.version, subject, ctx.source, r.resource, ctx.generation, r.revision, r.revision, true)];
      transitions := transitions + [AlertTransition(id, p.id, p.version, false, true, r.revision)];
      var d := Decision(p.id, p.version, subject, r.revision, AlertEvaluation.Create, id);
      EffectsSnoc(decisions, d, AlertEvaluation.Create);
      EffectsSnoc(decisions, d, Resolve);
      decisions := decisions + [d];
    }

    method ResolveOpen(id: nat, revision: nat)
      requires id < |alerts|
      modifies this
      ensures View() == ResolveAlert(old(View()), id, revision)
      ensures Counted(old(decisions), 0, 1)
    {
      var a := alerts[id];
      alerts := alerts[id := a.(active := false, currentRevision := revision)];
      transitions := transitions + [AlertTransition(id, a.policy, a.version, true, false, revision)];
      var d := Decision(a.policy, a.version, a.subject, revision, Resolve, id);
      EffectsSnoc(decisions, d, AlertEvaluation.Create);
      EffectsSnoc(decisions, d, Resolve);
      decisions := decisions + [d];
    }

    /** The open alerts of a policy and source, by subject. */
    method OpenAlerts(m: P.Db, policy: nat, source: nat) returns (open: map<nat, nat>)
      requires LedgerInv(View(), m)
      ensures forall t: nat :: t < |m.problems| ==> Opened(open, t) == FindOpen(alerts, policy, source, t)
    {
      open := map[];
      for a := 0 to |alerts|
        invariant forall t: nat :: Opened(open, t) == FindOpen(alerts[..a], policy, source, t)
      {
        assert alerts[..a + 1][..a] == alerts[..a];
        if alerts[a].active && alerts[a].policy == policy && alerts[a].source == source {
          open := open[alerts[a].subject := a];
        }
      }
      assert alerts[..|alerts|] == alerts;
    }

    /** One current problem against one policy. */
    method EvaluateSubject(p: Policy, m: P.Db, ctx: Context, s: nat, existing: Option<nat>)
      returns (created: nat, resolved: nat, skipped: nat)
      requires s < |m.problems| && IsCurrent(m, ctx, s) && existing == FindOpen(alerts, p.id, ctx.source, s)
      modifies this
      ensures View() == Settle(old(View()), p, m, ctx, s)
      ensures Counted(old(decisions), created, resolved)
      ensures skipped == if Skipped(old(View()), p, m, ctx, s) then 1 else 0
    {
      created, resolved, skipped := 0, 0, 0;
      var r := m.problems[s];
      if Matches(p, r) && existing == None {
        if Decided(View(), p.id, s, r.revision, AlertEvaluation.Create) {
          skipped := 1;
        } else {
          Create(p, ctx, r, s);
          created := 1;
        }
      } else if !Matches(p, r) && existing.Some? {
        if Decided(View(), p.id, s, r.revision, Resolve) {
          skipped := 1;
        } else {
          ResolveOpen(existing.value, r.revision);
          resolved := 1;
        }
      }
    }

    /** The loop over the current problems; `open` is the open alerts as the policy began. */
    method EvaluateCurrent(p: Policy, m: P.Db, ctx: Context, open: map<nat, nat>)
      returns (created: nat, resolved: nat, skipped: nat)
      requires LedgerInv(View(), m) && Numbered(m)
      requires forall t: nat :: t < |m.problems| ==> Opened(open, t) == FindOpen(alerts, p.id, ctx.source, t)
      modifies this
      ensures View() == SettleFrom(old(View()), p, m, ctx, true, 0)
      ensures LedgerInv(View(), m) && Counted(old(decisions), created, resolved)
      ensures skipped == SkipsFrom(old(View()), p, m, ctx, 0)
      ensures forall t: nat :: t < |m.problems| && !IsCurrent(m, ctx, t) ==>
                Opened(open, t) == FindOpen(alerts, p.id, ctx.source, t)
    {
      created, resolved, skipped := 0, 0, 0;
      for s := 0 to |m.problems|
        invariant LedgerInv(View(), m) && Counted(old(decisions), created, resolved)
        invariant SettleFrom(View(), p, m, ctx, true, s) == SettleFrom(old(View()), p, m, ctx, true, 0)
        invariant skipped + SkipsFrom(View(), p, m, ctx, s) == SkipsFrom(old(View()), p, m, ctx, 0)
        invariant forall t: nat :: t < |m.problems| && (s <= t || !IsCurrent(m, ctx, t)) ==>
                    Opened(open, t) == FindOpen(alerts, p.id, ctx.source, t)
      {
        if !IsCurrent(m, ctx, s) { continue; }
        SettleEffect(View(), p, m, ctx, s);
        OthersStayOpen(View(), p, m, ctx, s);
        var c, r, k := EvaluateSubject(p, m, ctx, s, Opened(open, s));
        created, resolved, skipped := created + c, resolved + r, skipped + k;
      }
    }

    /** The loop over the open alerts whose problem is not current any more. */
    method ResolveDisappeared(p: Policy, m: P.Db, ctx: Context, open: map<nat, nat>) returns (resolved: nat)
      requires LedgerInv(View(), m) && Numbered(m)
      requires forall t: nat :: t < |m.problems| && !IsCurrent(m, ctx, t) ==>
                 Opened(open, t) == FindOpen(alerts, p.id, ctx.source, t)
      modifies this
      ensures View() == SettleFrom(old(View()), p, m, ctx, false, 0)
      ensures LedgerInv(View(), m) && Counted(old(decisions), 0, resolved)
    {
      resolved := 0;
      for s := 0 to |m.problems|
        invariant LedgerInv(View(), m) && Counted(old(decisions), 0, resolved)
        invariant SettleFrom(View(), p, m, ctx, false, s) == SettleFrom(old(View()), p, m, ctx, false, 0)
        invariant forall t: nat :: s <= t < |m.problems| && !IsCurrent(m, ctx, t) ==>
                    Opened(open, t) == FindOpen(alerts, p.id, ctx.source, t)
      {
        if IsCurrent(m, ctx, s) { continue; }
        SettleEffect(View(), p, m, ctx, s);
        OthersStayOpen(View(), p, m, ctx, s);
        if s in open {
          var revision := SubjectRevision(m, s);
          if !Decided(View(), p.id, s, revision, Resolve) {
            ResolveOpen(open[s], revision);
            resolved := resolved + 1;
          }
        }
      }
    }

    /** evaluate_problem_policies: the counters are those of the returned stats. */
    method EvaluateProblemPolicies(m: P.Db, ctx: Context, policies: seq<Policy>)
      returns (created: nat, resolved: nat, skipped: nat)
      requires LedgerInv(View(), m) && Numbered(m) && OneVersionEach(policies)
      modifies this
      ensures View() == Evaluate(old(View()), policies, m, ctx)
      ensures LedgerInv(View(), m)
      ensures Counted(old(decisions), created, resolved)
      ensures skipped == if ctx.evidenceCurrent then Skips(old(View()), policies, m, ctx) else 0
    {
      created, resolved, skipped := 0, 0, 0;
      if !ctx.evidenceCurrent { return; }
      for k := 0 to |policies|
        invariant LedgerInv(View(), m) && Counted(old(decisions), created, resolved)
        invariant PolicyPasses(View(), policies[k..], m, ctx) == PolicyPasses(old(View()), policies, m, ctx)
        invariant skipped + Skips(View(), policies[k..], m, ctx) == Skips(old(View()), policies, m, ctx)
      {
        var p := policies[k];
        assert policies[k..][1..] == policies[k + 1..];
        if !Admitted(p, ctx) { continue; }
        var open := OpenAlerts(m, p.id, ctx.source);
        var c, r, n := EvaluateCurrent(p, m, ctx, open);
        var d := ResolveDisappeared(p, m, ctx, open);
        created, resolved, skipped := created + c, resolved + r + d, skipped + n;
      }
    }
  }

  function Opened(open: map<nat, nat>, subject: nat): Option<nat> {
    if subject in open then Some(open[subject]) else None
  }

  /** Settling a subject leaves what the open-alert query finds for the others. */
  lemma OthersStayOpen(l: Ledger, p: Policy, m: P.Db, ctx: Context, s: nat)
    requires LedgerInv(l, m) && Numbered(m) && s < |m.problems|
    ensures forall t: nat :: t < |m.problems| && t != s ==>
              FindOpen(Settle(l, p, m, ctx, s).alerts, p.id, ctx.source, t) == FindOpen(l.alerts, p.id, ctx.source, t)
  {
    SettleEffect(l, p, m, ctx, s);
    forall t: nat | t < |m.problems| && t != s
      ensures FindOpen(Settle(l, p, m, ctx, s).alerts, p.id, ctx.source, t) == FindOpen(l.alerts, p.id, ctx.source, t)
    {
      assert SamePair(l, Settle(l, p, m, ctx, s), p.id, t);
      OpenIsFound(l, m, p.id, ctx.source, t);
      OpenIsFound(Settle(l, p, m, ctx, s), m, p.id, ctx.source, t);
    }
  }

  /** A subject is skipped exactly when what the policy asks for, an alert for a standing problem
      that raises and none for one that does not, is not so and was decided at this revision. */
  lemma SkippedIff(l: Ledger, p: Policy, m: P.Db, ctx: Context, s: nat)
    requires LedgerInv(l, m) && s < |m.problems|
    ensures var r := m.problems[s];
      Skipped(l, p, m, ctx, s) <==>
        && Stands(r, ctx)
        && (Active(l, p.id, s) <==> !Raises(p, r))
        && Decided(l, p.id, s, r.revision, if Raises(p, r) then AlertEvaluation.Create else Resolve)
  {
    MatchesIsRaises(p, m.problems[s]);
    OpenIsFound(l, m, p.id, ctx.source, s);
  }
}
