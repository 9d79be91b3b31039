/**
 The repository, reaper and scheduler over mutable tables.  Every method is one database
 transaction; its contract ties the tables after it to the transaction functions of
 SyncOperations, so the run theorems of SyncSafety speak about these methods.
 */
module SyncRepository {
  import opened Common
  import opened SyncOperations
  import opened SyncSafety

  class Repository {
    const cfg: Config
    var sources: seq<Source>
    var ops: seq<Op>
    var claims: seq<Claim>
    var accepted: seq<Acceptance>
    var fetched: seq<Read>

    function View(): Db
      reads this
    {
      Db(sources, ops, claims, accepted, fetched)
    }

    constructor (cfg: Config, sources: seq<Source>)
      ensures this.cfg == cfg && View() == Db(sources, [], [], [], [])
      ensures Inv(View())
    {
      this.cfg := cfg;
      this.sources, ops, claims, accepted, fetched := sources, [], [], [], [];
    }

    /** claim_* of the validation, inventory, metric definition and current-state kinds,
        and claim_metric_history with the outcome of its target query. */
    method Claim(id: nat, now: int, noTargets: bool) returns (token: Option<nat>)
      requires Inv(View())
      requires id < |ops| ==> ops[id].kind != Problem
      modifies this
      ensures View() == Step(cfg, old(View()), DoClaim(id, noTargets, now))
      ensures Inv(View())
      ensures token.Some? <==> old(CanClaim(View(), id)) && !(old(ops)[id].kind == History && noTargets)
      ensures token.Some? ==> token.value == |old(claims)| && CompletionFence(View(), token.value)
    {
      StepInv(cfg, View(), DoClaim(id, noTargets, now));
      token := None;
      if id < |ops| {
        var o := ops[id];
        assert OpOk(View(), id);
        var s := sources[o.source];
        if o.state == Pending && o.token == None && Fence(s, o) {
          ops := ops[id := o.(state := Running, token := Some(|claims|), startedAt := now)];
          claims := claims + [SyncOperations.Claim(id, o.source, o.kind, o.authority, s.binding, o.slot)];
          if o.kind == History && noTargets {
            ops := ops[id := ops[id].(state := Succeeded, completedAt := now)];
          } else {
            token := Some(|claims| - 1);
          }
          assert sources[o.source := s] == sources;
        }
      }
    }

    /** claim_problem_state: the slot is taken here, by bumping the source's generation. */
    method ClaimProblemState(id: nat, now: int) returns (token: Option<nat>)
      requires Inv(View())
      requires id < |ops| ==> ops[id].kind == Problem
      modifies this
      ensures View() == Step(cfg, old(View()), DoClaim(id, false, now))
      ensures Inv(View())
      ensures token.Some? <==> old(CanClaim(View(), id))
      ensures token.Some? ==> token.value == |old(claims)| && CompletionFence(View(), token.value)
    {
      StepInv(cfg, View(), DoClaim(id, false, now));
      token := None;
      if id < |ops| {
        var o := ops[id];
        assert OpOk(View(), id);
        var s := sources[o.source];
        if o.state == Pending && o.token == None && Fence(s, o) && s.evidence == Current {
          if s.admittedEpoch != Some(s.problemSlot.epoch) {
            return;
          }
          var slot := Slot(s.problemSlot.epoch, s.problemSlot.generation + 1);
          sources := sources[o.source := s.(problemSlot := slot)];
          ops := ops[id := o.(state := Running, token := Some(|claims|), startedAt := now, slot := Some(slot))];
          token := Some(|claims|);
          claims := claims + [SyncOperations.Claim(id, o.source, o.kind, o.authority, s.binding, Some(slot))];
        }
      }
    }

    /** complete_*: rejected unless the fence still holds; otherwise evidence, slot and
        state are written and the follow-up operation, if any, is inserted. */
    method Complete(token: nat, out: Outcome, now: int) returns (ok: bool)
      requires Inv(View()) && Terminal(out.state)
      modifies this
      ensures View() == Step(cfg, old(View()), DoComplete(token, out, now))
      ensures Inv(View())
      ensures ok == old(CanComplete(View(), token))
      ensures !CanComplete(View(), token)
      ensures ok ==> !CompletionFence(View(), token)
    {
      StepInv(cfg, View(), DoComplete(token, out, now));
      ghost var goal := Step(cfg, View(), DoComplete(token, out, now));
      ok := CanComplete(View(), token);
      if ok {
        var c := claims[token];
        sources := sources[c.source := sources[c.source].(evidence := out.evidence)];
        if MetricPoll(c.kind) {
          sources := sources[c.source := WithSlot(sources[c.source], c.kind, c.slot.value)];
        }
        ops := ops[c.op := ops[c.op].(state := CompletedState(c, out), completedAt := now)];
        if c.kind == Problem {
          ops := ops[c.op := ops[c.op].(token := None)];
        }
        assert ops == old(ops)[c.op := goal.ops[c.op]];
        if c.kind == Problem && out.reassociate && !LiveInventory(ops, c.source) {
          ops := ops + [Op(c.source, HostInventory, c.authority, None, Pending, None, now, 0, 0, 0)];
        } else if c.kind == History && out.chain {
          ops := ops + [Op(c.source, History, c.authority, None, Pending, None, now, 0, 0, 0)];
        }
        accepted := accepted + [Acceptance(token, c.source, c.kind, c.slot)];
        assert ops == goal.ops && sources == goal.sources;
      }
    }

    /** _reap_orphaned_running: two updates, the second after the first. */
    method ReapOrphanedRunning(now: int)
      requires Inv(View())
      modifies this`ops
      ensures View() == Step(cfg, old(View()), DoReap(now))
      ensures Inv(View())
    {
      StepInv(cfg, View(), DoReap(now));
      ops := seq(|ops|, i requires 0 <= i < |ops| reads this =>
        if Orphaned(cfg, ops[i], now) && ops[i].recovery < cfg.recoveryMax
        then ops[i].(state := Pending, token := None, startedAt := 0, recovery := ops[i].recovery + 1)
        else ops[i]);
      ops := seq(|ops|, i requires 0 <= i < |ops| reads this =>
        if Orphaned(cfg, ops[i], now) && ops[i].recovery >= cfg.recoveryMax
        then ops[i].(state := FailedTerminal, token := None, completedAt := now)
        else ops[i]);
    }

    /** _sweep_zombie_pending */
    method SweepZombiePending(now: int)
      requires Inv(View())
      modifies this`ops
      ensures View() == Step(cfg, old(View()), DoSweep(now))
      ensures Inv(View())
      ensures forall id | 0 <= id < |ops| && ops[id].state == Pending && ops[id].kind != Problem :: CanClaim(View(), id)
    {
      StepInv(cfg, View(), DoSweep(now));
      forall id | 0 <= id < |ops|
        ensures Swept(sources, ops[id], now).state == Pending && ops[id].kind != Problem ==> CanClaim(View(), id)
      {
        assert OpOk(View(), id);
        SweepLeavesExactlyTheClaimable(View(), now, id);
      }
      ops := seq(|ops|, i requires 0 <= i < |ops| reads this =>
        if ops[i].source < |sources| && Zombie(sources[ops[i].source], ops[i])
        then ops[i].(state := FailedTerminal, completedAt := now)
        else ops[i]);
    }

    /** requeue_sync_operation */
    method RequeueOperation(id: nat) returns (ok: bool)
      modifies this`ops, this`sources
      ensures ok == old(Requeue(View(), id).Some?)
      ensures View() == Step(cfg, old(View()), OperatorRequeue(id))
    {
      ok := id < |ops| && ops[id].source < |sources| && ops[id].state in {ReconciliationRequired, FailedTerminal};
      if ok {
        ops := ops[id := ops[id].(state := Pending, token := None, startedAt := 0, completedAt := 0,
                                  recovery := ops[id].recovery + 1)];
        var src := ops[id].source;
        if sources[src].evidence == EvidenceReconciliation {
          sources := sources[src := sources[src].(evidence := Current)];
        }
      }
    }

    /** The requeue loop over distinct requeueable rows. */
    method RequeuePicks(picks: seq<nat>) returns (requeued: nat)
      requires forall k :: 0 <= k < |picks| ==> Requeue(View(), picks[k]).Some?
      requires forall i, j :: 0 <= i < j < |picks| ==> picks[i] != picks[j]
      modifies this`ops, this`sources
      ensures View() == RequeueAll(old(View()), picks)
      ensures requeued == |picks|
    {
      requeued := 0;
      for k := 0 to |picks|
        invariant requeued == k
        invariant RequeueAll(View(), picks[k..]) == RequeueAll(old(View()), picks)
        invariant forall j :: k <= j < |picks| ==> Requeue(View(), picks[j]).Some?
      {
        assert picks[k..][1..] == picks[k + 1..];
        var ok := RequeueOperation(picks[k]);
        if ok { requeued := requeued + 1; }
      }
    }

    /** _reconcile_terminal: `picks` is what its candidate query returned. */
    method ReconcileTerminal(picks: seq<nat>, now: int) returns (requeued: nat)
      requires Inv(View())
      requires ReconcilePicks(cfg, View(), picks, now)
      modifies this`ops, this`sources
      ensures View() == Step(cfg, old(View()), DoReconcile(picks, now))
      ensures Inv(View())
      ensures requeued == |picks|
    {
      StepInv(cfg, View(), DoReconcile(picks, now));
      forall k | 0 <= k < |picks| ensures Requeue(View(), picks[k]).Some? {
        assert RequeueCandidate(cfg, View(), picks[k], now) && OpOk(View(), picks[k]);
      }
      requeued := RequeuePicks(picks);
    }

    /** _enqueue_due after its due query: one operation per returned row whose advisory
        lock was obtained, numbered from the row as it was read. */
    method EnqueueDue(kind: Kind, rows: seq<nat>, locked: seq<bool>, now: int) returns (count: nat)
      requires Inv(View()) && |locked| == |rows|
      requires forall i :: 0 <= i < |rows| ==> rows[i] < |fetched|
      modifies this`ops
      ensures Inv(View()) && count == |rows|
      ensures ops == old(ops) + DueOps(fetched, rows, locked, kind, now)
    {
      for k := 0 to |rows|
        invariant Inv(View()) && ops == old(ops) + DueOps(fetched, rows[..k], locked[..k], kind, now)
      {
        assert rows[..k + 1][..k] == rows[..k] && locked[..k + 1][..k] == locked[..k];
        if locked[k] {
          StepInv(cfg, View(), Enqueue(rows[k], kind, true, now));
          ops := ops + [NewOp(fetched[rows[k]], kind, true, now)];
        }
      }
      assert rows[..|rows|] == rows && locked[..|locked|] == locked;
      count := |rows|;
    }
  }

  /** What a scheduler pass inserts: in row order, skipping the rows locked by another. */
  function DueOps(fetched: seq<Read>, rows: seq<nat>, locked: seq<bool>, kind: Kind, now: int): seq<Op>
    requires |locked| == |rows|
    requires forall i :: 0 <= i < |rows| ==> rows[i] < |fetched|
  {
    if rows == [] then []
    else
      var n := |rows| - 1;
      DueOps(fetched, rows[..n], locked[..n], kind, now)
        + (if locked[n] then [NewOp(fetched[rows[n]], kind, true, now)] else [])
  }

  function Count(locked: seq<bool>): nat {
    if locked == [] then 0 else Count(locked[..|locked| - 1]) + (if locked[|locked| - 1] then 1 else 0)
  }

  /** One waiting operation for each row whose lock was obtained, none for the others, each with
      the authority and, for a metric poll, the next slot of the row as it was read. */
  lemma {:induction false} DueOpsFollowTheLocks(
      fetched: seq<Read>, rows: seq<nat>, locked: seq<bool>, kind: Kind, now: int, i: nat)
    requires |locked| == |rows| && forall k :: 0 <= k < |rows| ==> rows[k] < |fetched|
    requires i < |rows| && locked[i]
    ensures var ops := DueOps(fetched, rows, locked, kind, now);
      && |ops| == Count(locked) && Count(locked[..i]) < |ops|
      && var o, r := ops[Count(locked[..i])], fetched[rows[i]];
      && o.source == r.source && o.kind == kind && o.authority == r.authority
      && o.state == Pending && o.token == None && o.recovery == 0 && o.createdAt == now
      && o.slot == match kind
                   case MetricDefinition => Some(Slot(r.definitionSlot.epoch, r.definitionSlot.generation + 1))
                   case CurrentState => Some(Slot(r.currentSlot.epoch, r.currentSlot.generation + 1))
                   case _ => None
    decreases |rows|
  {
    var n := |rows| - 1;
    DueOpsAreCounted(fetched, rows, locked, kind, now);
    DueOpsAreCounted(fetched, rows[..n], locked[..n], kind, now);
    if i < n {
      DueOpsFollowTheLocks(fetched, rows[..n], locked[..n], kind, now, i);
      assert locked[..n][..i] == locked[..i];
    }
  }

  lemma {:induction false} DueOpsAreCounted(
      fetched: seq<Read>, rows: seq<nat>, locked: seq<bool>, kind: Kind, now: int)
    requires |locked| == |rows| && forall k :: 0 <= k < |rows| ==> rows[k] < |fetched|
    ensures |DueOps(fetched, rows, locked, kind, now)| == Count(locked)
    decreases |rows|
  {
    if rows != [] { DueOpsAreCounted(fetched, rows[..|rows| - 1], locked[..|rows| - 1], kind, now); }
  }
}
