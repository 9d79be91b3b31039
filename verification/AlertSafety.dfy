/**
 Alert evaluation is exact and idempotent, and its ledger stays well formed over every
 run that interleaves evaluations with problem completions.
 */
module AlertSafety {
  import opened Common
  import opened AlertEvaluation
  import P = ProblemState
  import ProblemLog

  predicate Numbered(m: P.Db) { forall i :: 0 <= i < |m.problems| ==> m.problems[i].revision > 0 }

  /** Whether a pair has an active alert after it was settled, from the ledger before. */
  predicate Verdict(l: Ledger, p: Policy, m: P.Db, ctx: Context, s: nat)
    requires s < |m.problems|
  {
    var rev := SubjectRevision(m, s);
    if m.problems[s].key.source != ctx.source then Active(l, p.id, s)
    else if IsCurrent(m, ctx, s) && Matches(p, m.problems[s]) then
      Active(l, p.id, s) || !Decided(l, p.id, s, rev, Create)
    else
      Active(l, p.id, s) && Decided(l, p.id, s, rev, Resolve)
  }

  /** Settling the pair again would do nothing. */
  predicate Settled(l: Ledger, p: Policy, m: P.Db, ctx: Context, s: nat)
    requires s < |m.problems|
  {
    var rev := SubjectRevision(m, s);
    if m.problems[s].key.source != ctx.source then true
    else if IsCurrent(m, ctx, s) && Matches(p, m.problems[s]) then
      Active(l, p.id, s) || Decided(l, p.id, s, rev, Create)
    else
      Active(l, p.id, s) ==> Decided(l, p.id, s, rev, Resolve)
  }

  /** Two ledgers agree on a (policy, subject) pair. */
  ghost predicate SamePair(l: Ledger, l': Ledger, q: nat, t: nat) {
    && Replay(l'.decisions, q, t) == Replay(l.decisions, q, t)
    && (forall rev, e :: Decided(l', q, t, rev, e) <==> Decided(l, q, t, rev, e))
  }

  lemma DecidedSnoc(l: Ledger, l': Ledger, d: Decision, q: nat, t: nat, rev: nat, e: Effect)
    requires l'.decisions == l.decisions + [d]
    ensures Decided(l', q, t, rev, e) <==>
              Decided(l, q, t, rev, e) || (d.policy == q && d.subject == t && d.revision == rev && d.effect == e)
  {
    if Decided(l, q, t, rev, e) {
      var j :| 0 <= j < |l.decisions| && l.decisions[j].policy == q && l.decisions[j].subject == t
               && l.decisions[j].revision == rev && l.decisions[j].effect == e;
      assert l'.decisions[j] == l.decisions[j];
    }
    assert l'.decisions[|l.decisions|] == d;
  }

  lemma DecisionIsLocal(l: Ledger, l': Ledger, d: Decision)
    requires l'.decisions == l.decisions + [d]
    ensures forall q, t :: !(q == d.policy && t == d.subject) ==> SamePair(l, l', q, t)
    ensures Decided(l', d.policy, d.subject, d.revision, d.effect)
    ensures Replay(l'.decisions, d.policy, d.subject) == Follow(Replay(l.decisions, d.policy, d.subject), d)
  {
    forall q: nat, t: nat | !(q == d.policy && t == d.subject) ensures SamePair(l, l', q, t) {
      ReplaySnoc(l.decisions, d, q, t);
      forall rev, e ensures Decided(l', q, t, rev, e) <==> Decided(l, q, t, rev, e) {
        DecidedSnoc(l, l', d, q, t, rev, e);
      }
    }
    DecidedSnoc(l, l', d, d.policy, d.subject, d.revision, d.effect);
    ReplaySnoc(l.decisions, d, d.policy, d.subject);
  }

  lemma SettleEffect(l: Ledger, p: Policy, m: P.Db, ctx: Context, s: nat)
    requires LedgerInv(l, m) && Numbered(m) && s < |m.problems|
    ensures var l' := Settle(l, p, m, ctx, s);
            && LedgerInv(l', m)
            && (forall q, t :: !(q == p.id && t == s) ==> SamePair(l, l', q, t))
            && (Active(l', p.id, s) <==> Verdict(l, p, m, ctx, s))
            && Settled(l', p, m, ctx, s)
  {
    var l' := Settle(l, p, m, ctx, s);
    OpenIsFound(l, m, p.id, ctx.source, s);
    assert CellOk(l, p.id, s);
    if l' != l {
      var o := FindOpen(l.alerts, p.id, ctx.source, s);
      if o == None {
        CreateKeeps(l, p, m, ctx, s);
      } else {
        assert AlertOk(l, m, o.value);
        ResolveKeeps(l, m, o.value, SubjectRevision(m, s));
      }
      DecisionIsLocal(l, l', l'.decisions[|l.decisions|]);
      assert CellOk(l', p.id, s);
    }
  }

  lemma SamePairTrans(a: Ledger, b: Ledger, c: Ledger, q: nat, t: nat)
    requires SamePair(a, b, q, t) && SamePair(b, c, q, t)
    ensures SamePair(a, c, q, t)
  {
  }

  lemma SamePairJudged(a: Ledger, b: Ledger, p: Policy, m: P.Db, ctx: Context, t: nat)
    requires t < |m.problems| && SamePair(a, b, p.id, t)
    ensures Active(b, p.id, t) <==> Active(a, p.id, t)
    ensures Verdict(b, p, m, ctx, t) <==> Verdict(a, p, m, ctx, t)
    ensures Settled(b, p, m, ctx, t) <==> Settled(a, p, m, ctx, t)
  {
  }

  lemma {:induction false} SettleFromEffect(l: Ledger, p: Policy, m: P.Db, ctx: Context, current: bool, from: nat)
    requires LedgerInv(l, m) && Numbered(m) && from <= |m.problems|
    ensures var l' := SettleFrom(l, p, m, ctx, current, from);
            && LedgerInv(l', m)
            && (forall q: nat, t: nat :: q != p.id || t < from || t >= |m.problems| || IsCurrent(m, ctx, t) != current
                  ==> SamePair(l, l', q, t))
            && (forall t: nat :: from <= t < |m.problems| && IsCurrent(m, ctx, t) == current ==>
                  (Active(l', p.id, t) <==> Verdict(l, p, m, ctx, t)) && Settled(l', p, m, ctx, t))
    decreases |m.problems| - from
  {
    if from < |m.problems| {
      var mid := if IsCurrent(m, ctx, from) == current then Settle(l, p, m, ctx, from) else l;
      if IsCurrent(m, ctx, from) == current { SettleEffect(l, p, m, ctx, from); }
      SettleFromEffect(mid, p, m, ctx, current, from + 1);
      var l' := SettleFrom(l, p, m, ctx, current, from);
      forall q: nat, t: nat | q != p.id || t < from || t >= |m.problems| || IsCurrent(m, ctx, t) != current
        ensures SamePair(l, l', q, t)
      {
        SamePairTrans(l, mid, l', q, t);
      }
      forall t: nat | from <= t < |m.problems| && IsCurrent(m, ctx, t) == current
        ensures (Active(l', p.id, t) <==> Verdict(l, p, m, ctx, t)) && Settled(l', p, m, ctx, t)
      {
        if t == from { SamePairJudged(mid, l', p, m, ctx, t); } else { SamePairJudged(l, mid, p, m, ctx, t); }
      }
    }
  }

  /** One policy's pass settles every subject of the source and touches no other pair. */
  lemma PassEffect(l: Ledger, p: Policy, m: P.Db, ctx: Context)
    requires LedgerInv(l, m) && Numbered(m)
    ensures var l' := PolicyPass(l, p, m, ctx);
            && LedgerInv(l', m)
            && (forall q: nat, t: nat :: q != p.id || !Admitted(p, ctx) || t >= |m.problems| ==> SamePair(l, l', q, t))
            && (Admitted(p, ctx) ==> forall t: nat :: t < |m.problems| ==>
                  (Active(l', p.id, t) <==> Verdict(l, p, m, ctx, t)) && Settled(l', p, m, ctx, t))
  {
    if Admitted(p, ctx) {
      var mid := SettleFrom(l, p, m, ctx, true, 0);
      SettleFromEffect(l, p, m, ctx, true, 0);
      SettleFromEffect(mid, p, m, ctx, false, 0);
      forall t: nat | t < |m.problems|
        ensures Active(PolicyPass(l, p, m, ctx), p.id, t) <==> Verdict(l, p, m, ctx, t)
        ensures Settled(PolicyPass(l, p, m, ctx), p, m, ctx, t)
      {
        if IsCurrent(m, ctx, t) {
          assert SamePair(mid, PolicyPass(l, p, m, ctx), p.id, t);
        } else {
          assert SamePair(l, mid, p.id, t);
        }
      }
      forall q: nat, t: nat | q != p.id || t >= |m.problems| ensures SamePair(l, PolicyPass(l, p, m, ctx), q, t) {
        assert SamePair(l, mid, q, t) && SamePair(mid, PolicyPass(l, p, m, ctx), q, t);
      }
    }
  }

  lemma {:induction false} PassesEffect(l: Ledger, ps: seq<Policy>, m: P.Db, ctx: Context)
    requires LedgerInv(l, m) && Numbered(m) && OneVersionEach(ps)
    ensures var l' := PolicyPasses(l, ps, m, ctx);
            && LedgerInv(l', m)
            && (forall q: nat, t: nat :: (forall i :: 0 <= i < |ps| ==> ps[i].id != q) ==> SamePair(l, l', q, t))
            && (forall i, t: nat :: 0 <= i < |ps| && Admitted(ps[i], ctx) && t < |m.problems| ==>
                  (Active(l', ps[i].id, t) <==> Verdict(l, ps[i], m, ctx, t)) && Settled(l', ps[i], m, ctx, t))
    decreases |ps|
  {
    if ps != [] {
      var mid, l' := PolicyPass(l, ps[0], m, ctx), PolicyPasses(l, ps, m, ctx);
      PassEffect(l, ps[0], m, ctx);
      PassesEffect(mid, ps[1..], m, ctx);
      forall i, t: nat | 0 <= i < |ps| && Admitted(ps[i], ctx) && t < |m.problems|
        ensures (Active(l', ps[i].id, t) <==> Verdict(l, ps[i], m, ctx, t)) && Settled(l', ps[i], m, ctx, t)
      {
        if i == 0 {
          assert SamePair(mid, l', ps[0].id, t);
        } else {
          assert ps[i] == ps[1..][i - 1];
          assert SamePair(l, mid, ps[i].id, t);
        }
      }
      forall q: nat, t: nat | forall i :: 0 <= i < |ps| ==> ps[i].id != q ensures SamePair(l, l', q, t) {
        assert SamePair(l, mid, q, t) && SamePair(mid, l', q, t);
      }
    }
  }

  /* ---------- main results on one evaluation ---------- */

  /** Exactly which pairs have an active alert after an evaluation of a current source.  A
      matching current problem has one unless none was open and its create at this revision
      had been decided before; anything else has one only if it was open and its resolve at
      this revision had been decided before. */
  lemma EvaluationIsExact(l: Ledger, ps: seq<Policy>, m: P.Db, ctx: Context, i: nat, s: nat)
    requires LedgerInv(l, m) && Numbered(m) && OneVersionEach(ps) && ctx.evidenceCurrent
    requires i < |ps| && Admitted(ps[i], ctx) && s < |m.problems| && m.problems[s].key.source == ctx.source
    ensures var l' := Evaluate(l, ps, m, ctx);
            var rev := SubjectRevision(m, s);
            Active(l', ps[i].id, s) <==>
              if IsCurrent(m, ctx, s) && Matches(ps[i], m.problems[s])
              then Active(l, ps[i].id, s) || !Decided(l, ps[i].id, s, rev, Create)
              else Active(l, ps[i].id, s) && Decided(l, ps[i].id, s, rev, Resolve)
  {
    PassesEffect(l, ps, m, ctx);
  }

  /** With no earlier decision at the subject's revision: active iff current and matching. */
  lemma UndecidedSubjectsFollowThePolicy(l: Ledger, ps: seq<Policy>, m: P.Db, ctx: Context, i: nat, s: nat)
    requires LedgerInv(l, m) && Numbered(m) && OneVersionEach(ps) && ctx.evidenceCurrent
    requires i < |ps| && Admitted(ps[i], ctx) && s < |m.problems| && m.problems[s].key.source == ctx.source
    requires forall e :: !Decided(l, ps[i].id, s, SubjectRevision(m, s), e)
    ensures Active(Evaluate(l, ps, m, ctx), ps[i].id, s) <==> IsCurrent(m, ctx, s) && Matches(ps[i], m.problems[s])
  {
    EvaluationIsExact(l, ps, m, ctx, i, s);
  }

  lemma SettledIsFixed(l: Ledger, p: Policy, m: P.Db, ctx: Context, s: nat)
    requires LedgerInv(l, m) && Numbered(m) && s < |m.problems| && Settled(l, p, m, ctx, s)
    ensures Settle(l, p, m, ctx, s) == l
  {
    OpenIsFound(l, m, p.id, ctx.source, s);
  }

  lemma {:induction false} SettledPassIsFixed(l: Ledger, p: Policy, m: P.Db, ctx: Context, current: bool, from: nat)
    requires LedgerInv(l, m) && Numbered(m) && from <= |m.problems|
    requires forall t: nat :: t < |m.problems| ==> Settled(l, p, m, ctx, t)
    ensures SettleFrom(l, p, m, ctx, current, from) == l
    decreases |m.problems| - from
  {
    if from < |m.problems| {
      SettledIsFixed(l, p, m, ctx, from);
      SettledPassIsFixed(l, p, m, ctx, current, from + 1);
    }
  }

  lemma {:induction false} SettledPassesAreFixed(l: Ledger, ps: seq<Policy>, m: P.Db, ctx: Context)
    requires LedgerInv(l, m) && Numbered(m)
    requires forall i, t: nat ::
      0 <= i < |ps| && Admitted(ps[i], ctx) && t < |m.problems| ==> Settled(l, ps[i], m, ctx, t)
    ensures PolicyPasses(l, ps, m, ctx) == l
    decreases |ps|
  {
    if ps != [] {
      if Admitted(ps[0], ctx) {
        SettledPassIsFixed(l, ps[0], m, ctx, true, 0);
        SettledPassIsFixed(l, ps[0], m, ctx, false, 0);
      }
      SettledPassesAreFixed(l, ps[1..], m, ctx);
    }
  }

  /** A second evaluation on unchanged Monitoring state changes nothing. */
  lemma EvaluationIsIdempotent(l: Ledger, ps: seq<Policy>, m: P.Db, ctx: Context)
    requires LedgerInv(l, m) && Numbered(m) && OneVersionEach(ps)
    ensures Evaluate(Evaluate(l, ps, m, ctx), ps, m, ctx) == Evaluate(l, ps, m, ctx)
  {
    if ctx.evidenceCurrent {
      PassesEffect(l, ps, m, ctx);
      SettledPassesAreFixed(PolicyPasses(l, ps, m, ctx), ps, m, ctx);
    }
  }

  /** Decisions are never taken back by an evaluation. */
  lemma DecidedStays(l: Ledger, ps: seq<Policy>, m: P.Db, ctx: Context, q: nat, s: nat, rev: nat, e: Effect)
    requires Decided(l, q, s, rev, e)
    ensures Decided(Evaluate(l, ps, m, ctx), q, s, rev, e)
  {
    PassesGrow(l, ps, m, ctx);
    var l' := PolicyPasses(l, ps, m, ctx);
    var j :| 0 <= j < |l.decisions| && l.decisions[j].policy == q && l.decisions[j].subject == s
             && l.decisions[j].revision == rev && l.decisions[j].effect == e;
    assert l'.decisions[j] == l.decisions[j];
  }

  /** Monitoring states that differ in evidence, confirmation and poll slots at most, as far as
      revisions tell. */
  predicate SameRevisions(a: P.Db, b: P.Db) {
    && |a.problems| == |b.problems|
    && (forall t :: 0 <= t < |a.problems| ==>
          a.problems[t].key == b.problems[t].key && a.problems[t].revision == b.problems[t].revision)
  }

  /** The other side of the ledger: evidence that flaps at an unchanged revision loses the
      alert.  `gone` is Monitoring while the subject is not current, `back` once it is current
      and matching again; the alert created at that revision in `m` is resolved in between and
      never created again. */
  lemma FlappingEvidenceLosesTheAlert(
      l: Ledger, ps: seq<Policy>, m: P.Db, gone: P.Db, back: P.Db, ctx: Context, i: nat, s: nat)
    requires LedgerInv(l, m) && Numbered(m) && OneVersionEach(ps) && ctx.evidenceCurrent
    requires SameRevisions(m, gone) && SameRevisions(m, back)
    requires i < |ps| && Admitted(ps[i], ctx) && s < |m.problems| && m.problems[s].key.source == ctx.source
    requires !IsCurrent(gone, ctx, s) && IsCurrent(back, ctx, s) && Matches(ps[i], back.problems[s])
    requires Decided(l, ps[i].id, s, SubjectRevision(m, s), Create)
    requires !Decided(l, ps[i].id, s, SubjectRevision(m, s), Resolve)
    ensures !Active(Evaluate(Evaluate(l, ps, gone, ctx), ps, back, ctx), ps[i].id, s)
  {
    SameRevisionsSameLedger(l, m, gone);
    PassesEffect(l, ps, gone, ctx);
    var l2 := Evaluate(l, ps, gone, ctx);
    EvaluationIsExact(l, ps, gone, ctx, i, s);
    SameRevisionsSameLedger(l2, gone, back);
    DecidedStays(l, ps, gone, ctx, ps[i].id, s, SubjectRevision(m, s), Create);
    EvaluationIsExact(l2, ps, back, ctx, i, s);
  }

  lemma SameRevisionsSameLedger(l: Ledger, a: P.Db, b: P.Db)
    requires LedgerInv(l, a) && SameRevisions(a, b)
    ensures LedgerInv(l, b)
  {
    forall x | 0 <= x < |l.alerts| ensures AlertOk(l, b, x) { assert AlertOk(l, a, x); }
  }

  /* ---------- whole runs ---------- */

  datatype Event =
    | CompleteProblems(x: P.Completion)
    | EvaluatePolicies(ps: seq<Policy>, ctx: Context)

  datatype World = World(monitoring: P.Db, ledger: Ledger)

  function Step(w: World, e: Event): World {
    match e
    case CompleteProblems(x) => w.(monitoring := P.Step(w.monitoring, x))
    case EvaluatePolicies(ps, ctx) =>
      if OneVersionEach(ps) then w.(ledger := Evaluate(w.ledger, ps, w.monitoring, ctx)) else w
  }

  function Run(w: World, es: seq<Event>): World
    decreases |es|
  {
    if es == [] then w else Run(Step(w, es[0]), es[1..])
  }

  const Start := World(P.Empty, NoAlerts)

  ghost predicate WorldInv(w: World) {
    ProblemLog.LogInv(w.monitoring) && Numbered(w.monitoring) && LedgerInv(w.ledger, w.monitoring)
  }

  /** How an alert may move: resolved is terminal, its pin and its creation never change. */
  predicate AlertLe(a: Alert, b: Alert) {
    && b.policy == a.policy && b.version == a.version && b.subject == a.subject && b.source == a.source
    && b.resource == a.resource && b.generation == a.generation && b.createdRevision == a.createdRevision
    && (!a.active ==> b == a)
  }

  ghost predicate LedgerGrows(l: Ledger, l': Ledger) {
    && |l.alerts| <= |l'.alerts| && l.decisions <= l'.decisions && l.transitions <= l'.transitions
    && (forall a :: 0 <= a < |l.alerts| ==> AlertLe(l.alerts[a], l'.alerts[a]))
  }

  lemma LedgerGrowsTrans(a: Ledger, b: Ledger, c: Ledger)
    requires LedgerGrows(a, b) && LedgerGrows(b, c)
    ensures LedgerGrows(a, c)
  {
    forall i | 0 <= i < |a.alerts| ensures AlertLe(a.alerts[i], c.alerts[i]) {
      assert AlertLe(a.alerts[i], b.alerts[i]) && AlertLe(b.alerts[i], c.alerts[i]);
    }
  }

  lemma {:induction false} SettleFromGrows(l: Ledger, p: Policy, m: P.Db, ctx: Context, current: bool, from: nat)
    requires from <= |m.problems|
    ensures LedgerGrows(l, SettleFrom(l, p, m, ctx, current, from))
    decreases |m.problems| - from
  {
    if from < |m.problems| {
      var mid := if IsCurrent(m, ctx, from) == current then Settle(l, p, m, ctx, from) else l;
      SettleFromGrows(mid, p, m, ctx, current, from + 1);
      LedgerGrowsTrans(l, mid, SettleFrom(l, p, m, ctx, current, from));
    }
  }

  lemma {:induction false} PassesGrow(l: Ledger, ps: seq<Policy>, m: P.Db, ctx: Context)
    ensures LedgerGrows(l, PolicyPasses(l, ps, m, ctx))
    decreases |ps|
  {
    if ps != [] {
      var mid := PolicyPass(l, ps[0], m, ctx);
      var first := SettleFrom(l, ps[0], m, ctx, true, 0);
      SettleFromGrows(l, ps[0], m, ctx, true, 0);
      SettleFromGrows(first, ps[0], m, ctx, false, 0);
      if Admitted(ps[0], ctx) { LedgerGrowsTrans(l, first, mid); }
      PassesGrow(mid, ps[1..], m, ctx);
      LedgerGrowsTrans(l, mid, PolicyPasses(l, ps, m, ctx));
    }
  }

  /** Problem revisions only grow, so the ledger stays valid as Monitoring moves on. */
  lemma LedgerSurvivesCompletions(l: Ledger, m: P.Db, m': P.Db)
    requires LedgerInv(l, m) && Numbered(m) && ProblemLog.Grows(m, m')
    ensures LedgerInv(l, m') && Numbered(m')
  {
    forall a | 0 <= a < |l.alerts| ensures AlertOk(l, m', a) {
      assert AlertOk(l, m, a);
      assert ProblemLog.RowLe(m.problems[l.alerts[a].subject], m'.problems[l.alerts[a].subject]);
    }
    forall i | 0 <= i < |m'.problems| ensures m'.problems[i].revision > 0 {
      if i < |m.problems| { assert ProblemLog.RowLe(m.problems[i], m'.problems[i]); }
    }
  }

  lemma StepWorld(w: World, e: Event)
    requires WorldInv(w)
    ensures WorldInv(Step(w, e)) && LedgerGrows(w.ledger, Step(w, e).ledger)
  {
    match e
    case CompleteProblems(x) =>
      ProblemLog.StepLog(w.monitoring, x);
      LedgerSurvivesCompletions(w.ledger, w.monitoring, Step(w, e).monitoring);
    case EvaluatePolicies(ps, ctx) =>
      if OneVersionEach(ps) {
        PassesEffect(w.ledger, ps, w.monitoring, ctx);
        PassesGrow(w.ledger, ps, w.monitoring, ctx);
      }
  }

  lemma {:induction false} RunWorld(w: World, es: seq<Event>)
    requires WorldInv(w)
    ensures WorldInv(Run(w, es)) && LedgerGrows(w.ledger, Run(w, es).ledger)
    decreases |es|
  {
    if es != [] {
      StepWorld(w, es[0]);
      RunWorld(Step(w, es[0]), es[1..]);
      LedgerGrowsTrans(w.ledger, Step(w, es[0]).ledger, Run(w, es).ledger);
    }
  }

  /** Over every run: per (policy, subject) creates and resolves alternate and at most one
      alert is active, no decision is taken twice at a revision, and each alert's resolving
      revision is at least its creating one. */
  lemma LedgerOverRuns(es: seq<Event>, policy: nat, subject: nat)
    ensures var l := Run(Start, es).ledger;
            && Replay(l.decisions, policy, subject) != Broken
            && DecisionsDistinct(l.decisions)
            && TransitionsMatch(l)
            && (forall a, b | 0 <= a < |l.alerts| && 0 <= b < |l.alerts| && l.alerts[a].active && l.alerts[b].active
                  && l.alerts[a].policy == l.alerts[b].policy && l.alerts[a].subject == l.alerts[b].subject :: a == b)
            && (forall a :: 0 <= a < |l.alerts| ==> l.alerts[a].createdRevision <= l.alerts[a].currentRevision)
  {
    RunWorld(Start, es);
    var w := Run(Start, es);
    var l := w.ledger;
    assert CellOk(l, policy, subject);
    forall a | 0 <= a < |l.alerts|
      ensures l.alerts[a].createdRevision <= l.alerts[a].currentRevision
      ensures l.alerts[a].active ==> Replay(l.decisions, l.alerts[a].policy, l.alerts[a].subject)
                                       == Open(a, l.alerts[a].version, l.alerts[a].createdRevision)
    {
      assert AlertOk(l, w.monitoring, a);
    }
  }

  /** Resolved is terminal and the pinned version never changes, in any continuation. */
  lemma AlertsKeepTheirPin(es: seq<Event>, more: seq<Event>, a: nat)
    requires a < |Run(Start, es).ledger.alerts|
    ensures var l, l' := Run(Start, es).ledger, Run(Run(Start, es), more).ledger;
            a < |l'.alerts| && l'.alerts[a].version == l.alerts[a].version
            && (!l.alerts[a].active ==> l'.alerts[a] == l.alerts[a])
  {
    RunWorld(Start, es);
    RunWorld(Run(Start, es), more);
    assert AlertLe(Run(Start, es).ledger.alerts[a], Run(Run(Start, es), more).ledger.alerts[a]);
  }
}
