/**
 A concrete run, from empty tables, that ends with a current matching problem and no alert:
 the problem opens, is missing from one incomplete snapshot, and is confirmed unchanged.  The
 source row is taken to be current at each evaluation, as any worker's completion may leave it.
 */
module AlertFlapping {
  import opened Common
  import opened AlertEvaluation
  import opened AlertSafety
  import opened ProblemAborts
  import P = ProblemState

  const Everything := Policy(5, 1, P.Warning, None, None)

  const Now := Context(1, 1, true)

  const Misses := P.Completion(FirstClaim.(pollGeneration := 2), true, false, [], map[], [], {1}, 200)

  const Confirms := P.Completion(FirstClaim.(pollGeneration := 3), true, true, [Disk], map[7 := 70], [], {1}, 300)

  const Evaluates := EvaluatePolicies([Everything], Now)

  /* ---------- Monitoring ---------- */

  const OpenRow := P.NewRow(FirstClaim, Disk)

  function Rows(r: P.Row): P.Db {
    P.Db(map[P.Key(1, 1, 7) := P.Binding(0, 1, 70)], [r],
         [P.Transition(0, None, P.Active, None, P.Critical, P.ProviderPositive, 1)],
         [P.EventOf(P.Transition(0, None, P.Active, None, P.Critical, P.ProviderPositive, 1))])
  }

  lemma Opened()
    ensures P.Step(P.Empty, Opens) == Rows(OpenRow)
  {
    OneProblem(P.Empty, Opens);
    var db := Rows(OpenRow);
    var t := P.Transition(0, None, P.Active, None, P.Critical, P.ProviderPositive, 1);
    assert P.Empty.transitions + [t] == [t] && P.Empty.outbox + [P.EventOf(t)] == [P.EventOf(t)];
    assert P.Empty.problems + [OpenRow] == [OpenRow];
    assert P.PersistOne(P.Empty, Opens, Disk) == Some(db);
    assert P.RecoverAll(db, FirstClaim, []) == Some(db);
    assert P.OmitFrom(db, FirstClaim, {7}, 100, 0) == db;
  }

  lemma Missed()
    ensures P.Step(Rows(OpenRow), Misses) == Rows(OpenRow.(evidence := EvidenceReconciliation))
  {
    var db := Rows(OpenRow);
    assert P.PersistAll(db, Misses, []) == Some(db);
    assert P.RecoverAll(db, Misses.claim, []) == Some(db);
    assert P.DegradeOmitted(db, Misses.claim, {}).problems == [OpenRow.(evidence := EvidenceReconciliation)];
  }

  lemma Confirmed()
    ensures P.Step(Rows(OpenRow.(evidence := EvidenceReconciliation)), Confirms)
         == Rows(OpenRow.(pollGeneration := 3))
  {
    var db := Rows(OpenRow.(evidence := EvidenceReconciliation));
    OneProblem(db, Confirms);
    var after := Rows(OpenRow.(pollGeneration := 3));
    assert P.PersistOne(db, Confirms, Disk).value.problems == [OpenRow.(pollGeneration := 3)];
    assert P.PersistOne(db, Confirms, Disk) == Some(after);
    assert P.RecoverAll(after, Confirms.claim, []) == Some(after);
    assert P.OmitFrom(after, Confirms.claim, {7}, 300, 0) == after;
  }

  /* ---------- the alerts ---------- */

  lemma FirstEvaluation()
    ensures var l := Evaluate(NoAlerts, [Everything], Rows(OpenRow), Now);
      l.decisions == [Decision(5, 1, 0, 1, Create, 0)]
  {
    var m := Rows(OpenRow);
    assert IsCurrent(m, Now, 0) && Matches(Everything, OpenRow);
    var l := Settle(NoAlerts, Everything, m, Now, 0);
    assert l == CreateAlert(NoAlerts, Everything, Now, OpenRow, 0);
    assert SettleFrom(NoAlerts, Everything, m, Now, true, 0) == SettleFrom(l, Everything, m, Now, true, 1) == l;
    assert SettleFrom(l, Everything, m, Now, false, 0) == SettleFrom(l, Everything, m, Now, false, 1) == l;
    assert PolicyPasses(NoAlerts, [Everything], m, Now) == PolicyPasses(l, [], m, Now) by {
      assert [Everything][1..] == [];
    }
  }

  /* ---------- the run ---------- */

  lemma Completes(w: World, x: P.Completion)
    ensures Step(w, CompleteProblems(x)) == World(P.Step(w.monitoring, x), w.ledger)
  {
  }

  lemma Evaluated(w: World)
    ensures Step(w, Evaluates) == World(w.monitoring, Evaluate(w.ledger, [Everything], w.monitoring, Now))
  {
  }

  lemma RunCons(w: World, e: Event, es: seq<Event>)
    ensures Run(w, [e] + es) == Run(Step(w, e), es)
  {
    assert ([e] + es)[1..] == es;
  }

  /** A completion and then an evaluation. */
  function Round(x: P.Completion): seq<Event> { [CompleteProblems(x)] + ([Evaluates] + []) }

  lemma RunRound(w: World, x: P.Completion)
    ensures var m := P.Step(w.monitoring, x);
      Run(w, Round(x)) == World(m, Evaluate(w.ledger, [Everything], m, Now))
  {
    RunCons(w, CompleteProblems(x), [Evaluates] + []);
    RunCons(Step(w, CompleteProblems(x)), Evaluates, []);
    Completes(w, x);
    Evaluated(Step(w, CompleteProblems(x)));
  }

  lemma {:induction false} RunAppend(w: World, es: seq<Event>, more: seq<Event>)
    ensures Run(w, es + more) == Run(Run(w, es), more)
    decreases |es|
  {
    if es == [] {
      assert es + more == more;
    } else {
      RunAppend(Step(w, es[0]), es[1..], more);
      assert (es + more)[1..] == es[1..] + more;
    }
  }

  const Flap := Round(Opens) + Round(Misses) + Round(Confirms)

  /** After the run the problem is active, current and matched by the policy, and no alert for
      it is. */
  lemma FlappingRunEndsWithoutAlert()
    ensures var w := Run(Start, Flap);
      && w.monitoring == Rows(OpenRow.(pollGeneration := 3))
      && IsCurrent(w.monitoring, Now, 0) && Matches(Everything, w.monitoring.problems[0])
      && !Active(w.ledger, Everything.id, 0)
  {
    var w2 := Run(Start, Round(Opens));
    var w4 := Run(w2, Round(Misses));
    RunAppend(Start, Round(Opens) + Round(Misses), Round(Confirms));
    RunAppend(Start, Round(Opens), Round(Misses));
    RunRound(Start, Opens);
    RunRound(w2, Misses);
    RunRound(w4, Confirms);
    Opened();
    Missed();
    Confirmed();
    FirstEvaluation();
    FirstLedger(w2);
  }

  lemma FirstLedger(w: World)
    requires w == Run(Start, Round(Opens)) && w.monitoring == Rows(OpenRow)
    requires w.ledger.decisions == [Decision(5, 1, 0, 1, Create, 0)]
    ensures var gone, back := Rows(OpenRow.(evidence := EvidenceReconciliation)), Rows(OpenRow.(pollGeneration := 3));
      !Active(Evaluate(Evaluate(w.ledger, [Everything], gone, Now), [Everything], back, Now), 5, 0)
  {
    RunWorld(Start, Round(Opens));
    assert Decided(w.ledger, 5, 0, 1, Create) by { assert w.ledger.decisions[0].effect == Create; }
    FlappingEvidenceLosesTheAlert(w.ledger, [Everything], w.monitoring,
      Rows(OpenRow.(evidence := EvidenceReconciliation)), Rows(OpenRow.(pollGeneration := 3)), Now, 0, 0);
  }
}
