/**
 Where the operation protocol does less than its names suggest: what a completion's state
 depends on, operations that can never complete again, and how often one can be handed out.
 Each condition is exact and each failure has a concrete run from an empty table.
 */
module SyncOutcomes {
  import opened Common
  import opened SyncEffects
  import opened SyncOperations
  import opened SyncSafety

  /* ---------- runs, put together ---------- */

  lemma {:induction false} RunAppend(cfg: Config, db: Db, es: seq<Event>, more: seq<Event>)
    ensures Run(cfg, db, es + more) == Run(cfg, Run(cfg, db, es), more)
    decreases |es|
  {
    if es == [] {
      assert es + more == more;
    } else {
      RunAppend(cfg, Step(cfg, db, es[0]), es[1..], more);
      assert (es + more)[1..] == es[1..] + more;
    }
  }

  lemma RunTwo(cfg: Config, db: Db, a: Event, b: Event)
    ensures Run(cfg, db, [a, b]) == Step(cfg, Step(cfg, db, a), b)
  {
    assert [a, b][1..] == [b] && [b][1..] == [];
    assert Run(cfg, Step(cfg, db, a), [b]) == Run(cfg, Step(cfg, Step(cfg, db, a), b), []);
  }

  lemma RunThree(cfg: Config, db: Db, a: Event, b: Event, c: Event)
    ensures Run(cfg, db, [a, b, c]) == Step(cfg, Step(cfg, Step(cfg, db, a), b), c)
  {
    RunTwo(cfg, Step(cfg, db, a), b, c);
    assert [a, b, c][1..] == [b, c];
  }

  /* ---------- a fresh operation ---------- */

  const Only := Source(Authority(1, 1, 1), 1, Current, Slot(0, 0), Slot(0, 0), Slot(0, 0), Some(0))

  /** One source and nothing else; its problem polling is admitted. */
  const Bare := Db([Only], [], [], [], [])

  function Start(kind: Kind): seq<Event> { [FetchSource(0), Enqueue(0, kind, true, 0)] }

  /** The only operation is pending and unclaimed, was handed out n times, recovered r times. */
  predicate Waiting(db: Db, kind: Kind, n: nat, r: nat) {
    && db.sources == [Only]
    && |db.ops| == 1 && db.ops[0].source == 0 && db.ops[0].kind == kind && db.ops[0].authority == Only.authority
    && db.ops[0].state == Pending && db.ops[0].token == None && db.ops[0].recovery == r
    && |db.claims| == n && ClaimsOf(db.claims, 0) == n
  }

  /** .. is running under the n-th token, since time 0. */
  predicate Working(db: Db, kind: Kind, n: nat, r: nat) {
    && db.sources == [Only]
    && |db.ops| == 1 && db.ops[0].source == 0 && db.ops[0].kind == kind && db.ops[0].authority == Only.authority
    && db.ops[0].state == Running && db.ops[0].token == Some(n) && db.ops[0].startedAt == 0 && db.ops[0].recovery == r
    && |db.claims| == n + 1 && ClaimsOf(db.claims, 0) == n + 1
    && db.claims[n] == Claim(0, 0, kind, Only.authority, Only.binding, db.ops[0].slot)
  }

  lemma StartWaits(cfg: Config, kind: Kind)
    ensures Waiting(Run(cfg, Bare, Start(kind)), kind, 0, 0)
    ensures Run(cfg, Bare, Start(kind)).accepted == []
  {
    RunTwo(cfg, Bare, FetchSource(0), Enqueue(0, kind, true, 0));
  }

  lemma ClaimWorks(cfg: Config, db: Db, kind: Kind, n: nat, r: nat)
    requires Waiting(db, kind, n, r) && kind in {Validation, HostInventory}
    ensures Working(Step(cfg, db, DoClaim(0, false, 0)), kind, n, r)
    ensures Step(cfg, db, DoClaim(0, false, 0)).accepted == db.accepted
  {
    var db' := Step(cfg, db, DoClaim(0, false, 0));
    assert CanClaim(db, 0);
    ClaimsOfSnoc(db.claims, db'.claims[n], 0);
  }

  /* ---------- the recovery bound is attained ---------- */

  const FailedOutcome := Outcome(FailedTerminal, Current, true, false, false)

  /** A worker dies once: claimed, then reaped. */
  function Death(cfg: Config): seq<Event> { [DoClaim(0, false, 0), DoReap(cfg.leaseSeconds + 1)] }

  /** A worker fails for good under token n, and an operator requeues the operation. */
  function Retry(n: nat): seq<Event> { [DoClaim(0, false, 0), DoComplete(n, FailedOutcome, 0), OperatorRequeue(0)] }

  lemma DeathWaits(cfg: Config, db: Db, n: nat, r: nat)
    requires Waiting(db, Validation, n, r) && r < cfg.recoveryMax
    ensures Waiting(Run(cfg, db, Death(cfg)), Validation, n + 1, r + 1)
  {
    RunTwo(cfg, db, DoClaim(0, false, 0), DoReap(cfg.leaseSeconds + 1));
    ClaimWorks(cfg, db, Validation, n, r);
  }

  lemma RetryWaits(cfg: Config, db: Db, n: nat, r: nat)
    requires Waiting(db, Validation, n, r)
    ensures Waiting(Run(cfg, db, Retry(n)), Validation, n + 1, r + 1)
  {
    RunThree(cfg, db, DoClaim(0, false, 0), DoComplete(n, FailedOutcome, 0), OperatorRequeue(0));
    ClaimWorks(cfg, db, Validation, n, r);
    var a := Step(cfg, db, DoClaim(0, false, 0));
    assert CanComplete(a, n);
    var b := Step(cfg, a, DoComplete(n, FailedOutcome, 0));
    assert b.sources == [Only] && |b.ops| == 1 && b.ops[0].state == FailedTerminal;
  }

  function Deaths(cfg: Config, k: nat): seq<Event> {
    if k == 0 then [] else Deaths(cfg, k - 1) + Death(cfg)
  }

  function Retries(n: nat, m: nat): seq<Event> {
    if m == 0 then [] else Retries(n, m - 1) + Retry(n + m - 1)
  }

  lemma {:induction false} DeathsWait(cfg: Config, db: Db, k: nat)
    requires Waiting(db, Validation, 0, 0) && k <= cfg.recoveryMax
    ensures Waiting(Run(cfg, db, Deaths(cfg, k)), Validation, k, k)
  {
    if k > 0 {
      DeathsWait(cfg, db, k - 1);
      RunAppend(cfg, db, Deaths(cfg, k - 1), Death(cfg));
      DeathWaits(cfg, Run(cfg, db, Deaths(cfg, k - 1)), k - 1, k - 1);
    }
  }

  lemma {:induction false} RetriesWait(cfg: Config, db: Db, n: nat, m: nat)
    requires Waiting(db, Validation, n, n)
    ensures Waiting(Run(cfg, db, Retries(n, m)), Validation, n + m, n + m)
  {
    if m > 0 {
      RetriesWait(cfg, db, n, m - 1);
      RunAppend(cfg, db, Retries(n, m - 1), Retry(n + m - 1));
      RetryWaits(cfg, Run(cfg, db, Retries(n, m - 1)), n + m - 1, n + m - 1);
    }
  }

  lemma {:induction false} RequeuesAdd(es: seq<Event>, more: seq<Event>, id: nat)
    ensures OperatorRequeues(es + more, id) == OperatorRequeues(es, id) + OperatorRequeues(more, id)
  {
    if es == [] {
      assert es + more == more;
    } else {
      RequeuesAdd(es[1..], more, id);
      assert (es + more)[1..] == es[1..] + more;
    }
  }

  lemma {:induction false} DeathsRequeueNothing(cfg: Config, k: nat)
    ensures OperatorRequeues(Deaths(cfg, k), 0) == 0
  {
    if k > 0 {
      DeathsRequeueNothing(cfg, k - 1);
      RequeuesAdd(Deaths(cfg, k - 1), Death(cfg), 0);
      var last := Death(cfg);
      assert last[1..][1..] == [];
      assert OperatorRequeues(last, 0) == OperatorRequeues(last[1..], 0) == OperatorRequeues(last[1..][1..], 0) == 0;
    }
  }

  lemma {:induction false} RetriesRequeue(n: nat, m: nat)
    ensures OperatorRequeues(Retries(n, m), 0) == m
  {
    if m > 0 {
      RetriesRequeue(n, m - 1);
      var last := Retry(n + m - 1);
      RequeuesAdd(Retries(n, m - 1), last, 0);
      assert last[1..][1..] == [OperatorRequeue(0)] && last[1..][1..][1..] == [];
      assert OperatorRequeues(last, 0) == OperatorRequeues(last[1..], 0) == OperatorRequeues(last[1..][1..], 0) == 1;
    }
  }

  /** RECOVERY_MAX dead workers, m operator requeues, and one more claim. */
  function LongLife(cfg: Config, m: nat): seq<Event> {
    Start(Validation) + Deaths(cfg, cfg.recoveryMax) + Retries(cfg.recoveryMax, m) + [DoClaim(0, false, 0)]
  }

  /** The bound on claims is attained for every number of operator requeues: nothing caps them,
      and without any the automatic paths do reach RECOVERY_MAX + 1. */
  lemma ClaimBoundIsAttained(cfg: Config, m: nat)
    ensures Initial(Bare)
    ensures OperatorRequeues(LongLife(cfg, m), 0) == m
    ensures ClaimsOf(Run(cfg, Bare, LongLife(cfg, m)).claims, 0) == cfg.recoveryMax + 1 + m
  {
    var R := cfg.recoveryMax;
    var a := Start(Validation);
    var b := a + Deaths(cfg, R);
    var c := b + Retries(R, m);
    StartWaits(cfg, Validation);
    RunAppend(cfg, Bare, a, Deaths(cfg, R));
    DeathsWait(cfg, Run(cfg, Bare, a), R);
    RunAppend(cfg, Bare, b, Retries(R, m));
    RetriesWait(cfg, Run(cfg, Bare, b), R, m);
    RunAppend(cfg, Bare, c, [DoClaim(0, false, 0)]);
    var w := Run(cfg, Bare, c);
    ClaimWorks(cfg, w, Validation, R + m, R + m);
    assert Run(cfg, w, [DoClaim(0, false, 0)]) == Step(cfg, w, DoClaim(0, false, 0));
    LongLifeRequeues(cfg, m);
  }

  lemma LongLifeRequeues(cfg: Config, m: nat)
    ensures OperatorRequeues(LongLife(cfg, m), 0) == m
  {
    var R := cfg.recoveryMax;
    var a := Start(Validation);
    assert a[1..][1..] == [];
    assert OperatorRequeues(a, 0) == OperatorRequeues(a[1..], 0) == 0;
    DeathsRequeueNothing(cfg, R);
    RetriesRequeue(R, m);
    RequeuesAdd(a, Deaths(cfg, R), 0);
    RequeuesAdd(a + Deaths(cfg, R), Retries(R, m), 0);
    RequeuesAdd(a + Deaths(cfg, R) + Retries(R, m), [DoClaim(0, false, 0)], 0);
    assert OperatorRequeues([DoClaim(0, false, 0)], 0) == 0 by { assert [DoClaim(0, false, 0)][1..] == []; }
  }

  /* ---------- what an accepted completion leaves its operation in ---------- */

  /** A completion that reports success leaves its operation succeeded if and only if it is not
      a problem poll or its snapshot was complete; otherwise the operation awaits
      reconciliation although the poll succeeded. */
  lemma SucceededIffSnapshotComplete(cfg: Config, db: Db, token: nat, out: Outcome, now: int)
    requires out.state == Succeeded && CanComplete(db, token)
    ensures var c, db' := db.claims[token], Step(cfg, db, DoComplete(token, out, now));
      && c.op < |db'.ops|
      && (db'.ops[c.op].state == Succeeded <==> c.kind != Problem || out.completeSnapshot)
      && (db'.ops[c.op].state != Succeeded ==> db'.ops[c.op].state == ReconciliationRequired)
  {
  }

  const IncompleteSuccess := Outcome(Succeeded, Current, false, false, false)

  /** A concrete run: a problem poll reports success on a cut-off snapshot. */
  lemma SuccessfulPollAwaitsReconciliation(cfg: Config)
    ensures var es := Start(Problem) + [DoClaim(0, false, 0), DoComplete(0, IncompleteSuccess, 0)];
      var db := Run(cfg, Bare, es);
      && |db.ops| == 1 && |db.accepted| == 1 && |db.sources| == 1
      && db.ops[0].state == ReconciliationRequired && db.sources[0].evidence == Current
  {
    StartWaits(cfg, Problem);
    RunAppend(cfg, Bare, Start(Problem), [DoClaim(0, false, 0), DoComplete(0, IncompleteSuccess, 0)]);
    var w := Run(cfg, Bare, Start(Problem));
    RunTwo(cfg, w, DoClaim(0, false, 0), DoComplete(0, IncompleteSuccess, 0));
    assert CanClaim(w, 0);
    var a := Step(cfg, w, DoClaim(0, false, 0));
    assert CanComplete(a, 0);
    SucceededIffSnapshotComplete(cfg, a, 0, IncompleteSuccess, 0);
  }

  /* ---------- an operation with snapshot evidence completes once ---------- */

  lemma CompletedStays(db: Db, db': Db, id: nat)
    requires db.claims <= db'.claims && db.accepted <= db'.accepted && Completed(db, id)
    ensures Completed(db', id)
  {
    var i :| 0 <= i < |db.accepted| && db.accepted[i].token < |db.claims| && db.claims[db.accepted[i].token].op == id;
    assert db'.accepted[i] == db.accepted[i];
  }

  /** Once a completion of an inventory or metric-definition operation was accepted, no later
      token of that operation is: requeued, it can be claimed and reaped but never completed. */
  lemma RequeuedSnapshotNeverCompletes(
      cfg: Config, db: Db, es: seq<Event>, id: nat, token: nat, out: Outcome, now: int)
    requires Inv(db) && id < |db.ops| && KeepsSnapshotEvidence(db.ops[id].kind) && Completed(db, id)
    requires Terminal(out.state)
    requires token < |Run(cfg, db, es).claims| && Run(cfg, db, es).claims[token].op == id
    ensures CompleteOp(Run(cfg, db, es), token, out, now) == None
  {
    var db' := Run(cfg, db, es);
    RunInv(cfg, db, es);
    RunEvolves(cfg, db, es);
    CompletedStays(db, db', id);
    assert ClaimOk(db', token);
    assert SameIdentity(db.ops[id], db'.ops[id]);
  }

  const Degraded := Outcome(ReconciliationRequired, Incomplete, false, false, false)

  /** A token whose fence holds is refused exactly in that case. */
  lemma RefusedIffCompletedBefore(db: Db, token: nat, out: Outcome, now: int)
    requires CompletionFence(db, token) && Terminal(out.state)
    ensures CompleteOp(db, token, out, now) == None
       <==> KeepsSnapshotEvidence(db.claims[token].kind) && Completed(db, db.claims[token].op)
  {
  }

  /** A degraded inventory, requeued and claimed again. */
  function Stuck(): seq<Event> {
    Start(HostInventory) + [DoClaim(0, false, 0), DoComplete(0, Degraded, 0)]
      + [OperatorRequeue(0), DoClaim(0, false, 0)]
  }

  lemma RunStuck(cfg: Config)
    ensures var w := Run(cfg, Bare, Start(HostInventory));
      Run(cfg, Bare, Stuck()) == Step(cfg, Step(cfg, Step(cfg, Step(cfg, w,
        DoClaim(0, false, 0)), DoComplete(0, Degraded, 0)), OperatorRequeue(0)), DoClaim(0, false, 0))
  {
    var w := Run(cfg, Bare, Start(HostInventory));
    RunTwo(cfg, w, DoClaim(0, false, 0), DoComplete(0, Degraded, 0));
    RunAppend(cfg, Bare, Start(HostInventory), [DoClaim(0, false, 0), DoComplete(0, Degraded, 0)]);
    var b := Step(cfg, Step(cfg, w, DoClaim(0, false, 0)), DoComplete(0, Degraded, 0));
    RunTwo(cfg, b, OperatorRequeue(0), DoClaim(0, false, 0));
    RunAppend(cfg, Bare, Start(HostInventory) + [DoClaim(0, false, 0), DoComplete(0, Degraded, 0)],
              [OperatorRequeue(0), DoClaim(0, false, 0)]);
  }

  lemma StuckAgain(cfg: Config, a: Db)
    requires Working(a, HostInventory, 0, 0) && a.accepted == []
    ensures var c := Step(cfg, Step(cfg, a, DoComplete(0, Degraded, 0)), OperatorRequeue(0));
      && |c.sources| == 1 && c.sources[0].authority == Only.authority && c.sources[0].binding == Only.binding
      && |c.ops| == 1
      && c.ops[0] == a.ops[0].(state := Pending, token := None, startedAt := 0, completedAt := 0, recovery := 1)
      && c.claims == a.claims && Completed(c, 0)
  {
    assert CanComplete(a, 0);
    var b := Step(cfg, a, DoComplete(0, Degraded, 0));
    assert b.accepted[0].token == 0;
  }

  /** A concrete run: its second completion holds the fence and is refused all the same. */
  lemma RequeuedInventoryIsStuck(cfg: Config)
    ensures var db := Run(cfg, Bare, Stuck());
      && CompletionFence(db, 1)
      && CompleteOp(db, 1, FailedOutcome, 0) == None
  {
    RunStuck(cfg);
    StartWaits(cfg, HostInventory);
    var w := Run(cfg, Bare, Start(HostInventory));
    ClaimWorks(cfg, w, HostInventory, 0, 0);
    var a := Step(cfg, w, DoClaim(0, false, 0));
    StuckAgain(cfg, a);
    var c := Step(cfg, Step(cfg, a, DoComplete(0, Degraded, 0)), OperatorRequeue(0));
    assert CanClaim(c, 0);
    var d := Step(cfg, c, DoClaim(0, false, 0));
    CompletedStays(c, d, 0);
    RefusedIffCompletedBefore(d, 1, FailedOutcome, 0);
  }

  /* ---------- the reconciler may double work ---------- */

  predicate Twice(ops: seq<Op>, src: nat, kind: Kind) {
    exists i, j :: 0 <= i < j < |ops| && Waits(ops[i], src, kind) && Waits(ops[j], src, kind)
  }

  predicate Picked(ops: seq<Op>, picks: seq<nat>, i: nat, src: nat, kind: Kind)
    requires i < |ops|
  {
    i in picks && ops[i].source == src && ops[i].kind == kind
  }

  predicate PicksTwice(ops: seq<Op>, picks: seq<nat>, src: nat, kind: Kind) {
    exists i, j :: 0 <= i < j < |ops| && Picked(ops, picks, i, src, kind) && Picked(ops, picks, j, src, kind)
  }

  lemma PickedWaits(cfg: Config, db: Db, picks: seq<nat>, now: int, i: nat, src: nat, kind: Kind)
    requires Inv(db) && i < |db.ops| && ReconcilePicks(cfg, db, picks, now)
    ensures var db' := Step(cfg, db, DoReconcile(picks, now));
      && |db'.ops| == |db.ops|
      && (Waits(db'.ops[i], src, kind) <==> Waits(db.ops[i], src, kind) || Picked(db.ops, picks, i, src, kind))
      && (Picked(db.ops, picks, i, src, kind) ==> forall j :: 0 <= j < |db.ops| ==> !Waits(db.ops[j], src, kind))
  {
    forall k | 0 <= k < |picks| ensures Requeue(db, picks[k]).Some? {
      assert RequeueCandidate(cfg, db, picks[k], now) && OpOk(db, picks[k]);
    }
    RequeueAllRow(db, picks, i);
    if i in picks { CandidateIsIdle(cfg, db, i, now); }
  }

  /** Work that was not live, made live where it was picked, is doubled where two were picked. */
  lemma DoubledByPicks(ops: seq<Op>, ops': seq<Op>, picks: seq<nat>, src: nat, kind: Kind)
    requires |ops'| == |ops| && !Twice(ops, src, kind)
    requires forall i :: 0 <= i < |ops| ==>
      (Waits(ops'[i], src, kind) <==> Waits(ops[i], src, kind) || Picked(ops, picks, i, src, kind))
    requires forall i, j :: 0 <= i < |ops| && 0 <= j < |ops| && Picked(ops, picks, i, src, kind) ==>
      !Waits(ops[j], src, kind)
    ensures Twice(ops', src, kind) <==> PicksTwice(ops, picks, src, kind)
  {
    if i, j :| 0 <= i < j < |ops'| && Waits(ops'[i], src, kind) && Waits(ops'[j], src, kind) {
      assert Picked(ops, picks, i, src, kind) ==> Picked(ops, picks, j, src, kind);
      assert Picked(ops, picks, j, src, kind) ==> Picked(ops, picks, i, src, kind);
      assert Picked(ops, picks, i, src, kind) || Twice(ops, src, kind);
    }
    if i, j :| 0 <= i < j < |ops| && Picked(ops, picks, i, src, kind) && Picked(ops, picks, j, src, kind) {
      assert Waits(ops'[i], src, kind) && Waits(ops'[j], src, kind);
    }
  }

  /** A pass skips work that is live already, but not work it makes live itself: if none was
      doubled before, a source has two live operations of a kind afterwards if and only if two of
      its operations of that kind were picked. */
  lemma ReconcilerDoublesIff(cfg: Config, db: Db, picks: seq<nat>, now: int, src: nat, kind: Kind)
    requires Inv(db) && ReconcilePicks(cfg, db, picks, now) && !Twice(db.ops, src, kind)
    ensures Twice(Step(cfg, db, DoReconcile(picks, now)).ops, src, kind) <==> PicksTwice(db.ops, picks, src, kind)
  {
    var db' := Step(cfg, db, DoReconcile(picks, now));
    RequeueAllLength(db, picks);
    forall i: nat | i < |db.ops|
      ensures Waits(db'.ops[i], src, kind) <==> Waits(db.ops[i], src, kind) || Picked(db.ops, picks, i, src, kind)
      ensures Picked(db.ops, picks, i, src, kind) ==> forall j :: 0 <= j < |db.ops| ==> !Waits(db.ops[j], src, kind)
    {
      PickedWaits(cfg, db, picks, now, i, src, kind);
    }
    DoubledByPicks(db.ops, db'.ops, picks, src, kind);
  }

  /** Two validations of one source, the first under token 0, .. */
  const TwoStarted :=
    [FetchSource(0), Enqueue(0, Validation, true, 0)] + [Enqueue(0, Validation, true, 0), DoClaim(0, false, 0)]

  /** .. both fail. */
  const BothFail := [DoClaim(1, false, 0), DoComplete(0, FailedOutcome, 0), DoComplete(1, FailedOutcome, 0)]

  const Fresh := Op(0, Validation, Only.authority, None, Pending, None, 0, 0, 0, 0)

  function Held(t: nat): Op { Fresh.(state := Running, token := Some(t)) }

  function Ended(t: nat): Op { Held(t).(state := FailedTerminal) }

  function Hold(t: nat): Claim { Claim(t, 0, Validation, Only.authority, Only.binding, None) }

  function Table(ops: seq<Op>, claims: seq<Claim>, accepted: seq<Acceptance>): Db {
    Db([Only], ops, claims, accepted, [Read(0, Only.authority, Slot(0, 0), Slot(0, 0))])
  }

  lemma Started(cfg: Config)
    ensures Run(cfg, Bare, TwoStarted) == Table([Held(0), Fresh], [Hold(0)], [])
  {
    RunAppend(cfg, Bare, Start(Validation), [Enqueue(0, Validation, true, 0), DoClaim(0, false, 0)]);
    RunTwo(cfg, Bare, FetchSource(0), Enqueue(0, Validation, true, 0));
    var a := Run(cfg, Bare, Start(Validation));
    assert a == Table([Fresh], [], []) by {
      assert [] + [Fresh] == [Fresh];
      assert Step(cfg, Bare, FetchSource(0)).fetched == [Read(0, Only.authority, Slot(0, 0), Slot(0, 0))];
    }
    RunTwo(cfg, a, Enqueue(0, Validation, true, 0), DoClaim(0, false, 0));
    var b := Step(cfg, a, Enqueue(0, Validation, true, 0));
    assert b == Table([Fresh, Fresh], [], []);
    assert b.ops[0 := Held(0)] == [Held(0), Fresh] && b.sources[0 := Only] == [Only];
  }

  lemma ClaimSecond(cfg: Config)
    ensures Step(cfg, Table([Held(0), Fresh], [Hold(0)], []), DoClaim(1, false, 0))
         == Table([Held(0), Held(1)], [Hold(0), Hold(1)], [])
  {
    var b := Table([Held(0), Fresh], [Hold(0)], []);
    assert CanClaim(b, 1);
    assert b.ops[1 := Held(1)] == [Held(0), Held(1)] && b.sources[0 := Only] == [Only];
  }

  lemma FailOne(cfg: Config, ops: seq<Op>, accepted: seq<Acceptance>, t: nat)
    requires t < 2 && |ops| == 2 && ops[t] == Held(t)
    ensures Step(cfg, Table(ops, [Hold(0), Hold(1)], accepted), DoComplete(t, FailedOutcome, 0))
         == Table(ops[t := Ended(t)], [Hold(0), Hold(1)], accepted + [Acceptance(t, 0, Validation, None)])
  {
    var c := Table(ops, [Hold(0), Hold(1)], accepted);
    assert c.claims[t] == Hold(t);
    assert CanComplete(c, t);
    assert c.sources[0 := Only] == [Only];
  }

  lemma BothFailed(cfg: Config)
    ensures Run(cfg, Bare, TwoStarted + BothFail).ops == [Ended(0), Ended(1)]
  {
    RunAppend(cfg, Bare, TwoStarted, BothFail);
    Started(cfg);
    var b := Table([Held(0), Fresh], [Hold(0)], []);
    RunThree(cfg, b, DoClaim(1, false, 0), DoComplete(0, FailedOutcome, 0), DoComplete(1, FailedOutcome, 0));
    ClaimSecond(cfg);
    FailOne(cfg, [Held(0), Held(1)], [], 0);
    FailOne(cfg, [Held(0), Held(1)][0 := Ended(0)], [] + [Acceptance(0, 0, Validation, None)], 1);
  }

  lemma BothArePicked(cfg: Config, db: Db, later: int)
    requires cfg.recoveryMax > 0 && later > cfg.backoffSeconds && db.ops == [Ended(0), Ended(1)]
    ensures ReconcilePicks(cfg, db, [0, 1], later)
    ensures !Twice(db.ops, 0, Validation) && PicksTwice(db.ops, [0, 1], 0, Validation)
  {
    assert forall i :: 0 <= i < 2 ==> !Waits(db.ops[i], 0, Validation);
    CandidateIsIdle(cfg, db, 0, later);
    CandidateIsIdle(cfg, db, 1, later);
    assert Picked(db.ops, [0, 1], 0, 0, Validation) && Picked(db.ops, [0, 1], 1, 0, Validation);
  }

  /** A concrete run: with a recovery left, one pass leaves the source two validations to do. */
  lemma OnePassDoublesWork(cfg: Config)
    requires cfg.recoveryMax > 0
    ensures var db, later := Run(cfg, Bare, TwoStarted + BothFail), cfg.backoffSeconds + 1;
      && ReconcilePicks(cfg, db, [0, 1], later) && !Twice(db.ops, 0, Validation)
      && Twice(Step(cfg, db, DoReconcile([0, 1], later)).ops, 0, Validation)
  {
    var db := Run(cfg, Bare, TwoStarted + BothFail);
    RunInv(cfg, Bare, TwoStarted + BothFail);
    BothFailed(cfg);
    BothArePicked(cfg, db, cfg.backoffSeconds + 1);
    ReconcilerDoublesIff(cfg, db, [0, 1], cfg.backoffSeconds + 1, 0, Validation);
  }
}
