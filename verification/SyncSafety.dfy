/**
 Safety of the sync-operation protocol over every run: interleavings of enqueues,
 claims, late or repeated completions, reaps, sweeps, requeues and source changes.
 */
module SyncSafety {
  import opened Common
  import opened SyncOperations

  /* ---------- what every step keeps ---------- */

  predicate SameIdentity(o: Op, p: Op) {
    && p.source == o.source && p.kind == o.kind && p.authority == o.authority
    && (MetricPoll(o.kind) ==> p.slot == o.slot)
    && o.recovery <= p.recovery
  }

  /** A row keeps its holder, loses it, or gets a token not handed out before. */
  predicate TokenMoves(o: Op, p: Op, issued: nat) {
    && (p.token == o.token || p.token == None || issued <= p.token.value)
    && (p.state == Running && p.token == o.token && p.token.Some? && p.token.value < issued ==> o.state == Running)
  }

  ghost predicate Evolves(db: Db, db': Db) {
    && |db.sources| == |db'.sources|
    && |db.ops| <= |db'.ops|
    && db.claims <= db'.claims
    && db.accepted <= db'.accepted
    && (forall i :: 0 <= i < |db.sources| ==> SourceLe(db.sources[i], db'.sources[i]))
    && (forall i :: 0 <= i < |db.ops| ==> SameIdentity(db.ops[i], db'.ops[i]))
    && (forall i :: 0 <= i < |db.ops| ==> TokenMoves(db.ops[i], db'.ops[i], |db.claims|))
  }

  lemma RequeueAllEvolves(db: Db, picks: seq<nat>)
    ensures Evolves(db, RequeueAll(db, picks))
    ensures RequeueAll(db, picks).claims == db.claims
    ensures RequeueAll(db, picks).accepted == db.accepted
    ensures RequeueAll(db, picks).fetched == db.fetched
    decreases |picks|
  {
    if picks != [] {
      var r := Requeue(db, picks[0]);
      RequeueAllEvolves(if r.Some? then r.value else db, picks[1..]);
    }
  }

  lemma ClaimEvolves(db: Db, id: nat, now: int, noTargets: bool)
    requires CanClaim(db, id)
    ensures Evolves(db, ClaimOp(db, id, now, noTargets).value)
  {
  }

  lemma CompleteEvolves(db: Db, token: nat, out: Outcome, now: int)
    requires Terminal(out.state) && CanComplete(db, token)
    ensures Evolves(db, CompleteOp(db, token, out, now).value)
  {
  }

  lemma RecoveryEvolves(cfg: Config, db: Db, now: int)
    ensures Evolves(db, Reap(cfg, db, now)) && Evolves(db, Sweep(db, now))
  {
  }

  lemma RequeueEvolves(db: Db, id: nat)
    requires Requeue(db, id).Some?
    ensures Evolves(db, Requeue(db, id).value)
  {
  }

  lemma SourceStepEvolves(cfg: Config, db: Db, e: Event)
    requires e.FetchSource? || e.Enqueue? || e.Admit? || e.Reconfigure?
    ensures Evolves(db, Step(cfg, db, e))
  {
  }

  lemma StepEvolves(cfg: Config, db: Db, e: Event)
    ensures Evolves(db, Step(cfg, db, e))
  {
    match e
    case DoClaim(id, noTargets, now) => if CanClaim(db, id) { ClaimEvolves(db, id, now, noTargets); }
    case DoComplete(token, out, now) =>
      if Terminal(out.state) && CanComplete(db, token) { CompleteEvolves(db, token, out, now); }
    case DoReconcile(picks, now) => RequeueAllEvolves(db, picks);
    case DoReap(now) => RecoveryEvolves(cfg, db, now);
    case DoSweep(now) => RecoveryEvolves(cfg, db, now);
    case OperatorRequeue(id) => if Requeue(db, id).Some? { RequeueEvolves(db, id); }
    case _ => SourceStepEvolves(cfg, db, e);
  }

  lemma {:induction false} RunEvolves(cfg: Config, db: Db, es: seq<Event>)
    ensures Evolves(db, Run(cfg, db, es))
    decreases |es|
  {
    if es != [] {
      StepEvolves(cfg, db, es[0]);
      RunEvolves(cfg, Step(cfg, db, es[0]), es[1..]);
    }
  }

  /* ---------- the invariant ---------- */

  ghost predicate OpBounds(db: Db, o: Op) {
    && o.source < |db.sources|
    && AuthorityLe(o.authority, db.sources[o.source].authority)
    && (MetricPoll(o.kind) && o.slot.Some? ==> AtMostNext(o.slot.value, SlotOf(db.sources[o.source], o.kind)))
  }

  /** Rows that existed before a step stay within the invariant's bounds after it. */
  lemma OldRowsStay(db: Db, db': Db)
    requires Inv(db) && Evolves(db, db')
    ensures forall i :: 0 <= i < |db.fetched| ==> ReadOk(db', db.fetched[i])
    ensures forall i :: 0 <= i < |db.ops| ==> OpBounds(db', db'.ops[i])
    ensures forall t :: 0 <= t < |db.claims| ==> ClaimOk(db', t)
    ensures forall i :: 0 <= i < |db.accepted| ==> AcceptedOk(db', db.accepted[i])
    ensures forall t :: 0 <= t < |db.claims| && Dead(db, t) ==> Dead(db', t)
  {
    forall t | 0 <= t < |db.claims| ensures ClaimOk(db', t) && (Dead(db, t) ==> Dead(db', t)) {
      assert ClaimOk(db, t);
    }
    forall i | 0 <= i < |db.ops| ensures OpBounds(db', db'.ops[i]) { assert OpOk(db, i); }
    forall i | 0 <= i < |db.fetched| ensures ReadOk(db', db.fetched[i]) { assert ReadOk(db, db.fetched[i]); }
    forall i | 0 <= i < |db.accepted| ensures AcceptedOk(db', db.accepted[i]) { assert AcceptedOk(db, db.accepted[i]); }
  }

  lemma EnqueueInv(cfg: Config, db: Db, e: Event)
    requires Inv(db) && (e.FetchSource? || e.Enqueue? || e.Admit? || e.Reconfigure?)
    ensures Inv(Step(cfg, db, e))
  {
    var db' := Step(cfg, db, e);
    StepEvolves(cfg, db, e);
    OldRowsStay(db, db');
    forall i | 0 <= i < |db'.ops| ensures OpOk(db', i) {
      if i < |db.ops| { assert OpOk(db, i); } else { assert ReadOk(db, db.fetched[e.read]); }
    }
  }

  lemma ClaimInv(cfg: Config, db: Db, e: Event)
    requires Inv(db) && e.DoClaim?
    ensures Inv(Step(cfg, db, e))
  {
    var db' := Step(cfg, db, e);
    StepEvolves(cfg, db, e);
    OldRowsStay(db, db');
    if db' != db {
      forall i | 0 <= i < |db'.ops| ensures OpOk(db', i) { assert OpOk(db, i); }
      assert ClaimOk(db', |db.claims|);
      forall t | 0 <= t < |db.claims| && db.claims[t].kind == Problem && db.claims[t].source == db.ops[e.id].source
        ensures db.claims[t].slot.Some? && SlotLe(db.claims[t].slot.value, db.sources[db.ops[e.id].source].problemSlot)
      {
        assert ClaimOk(db, t);
      }
    }
  }

  /** An accepted completion comes after everything accepted before in its stream. */
  lemma AcceptanceIsNext(db: Db, token: nat, out: Outcome, now: int)
    requires Inv(db) && Terminal(out.state) && CanComplete(db, token)
    ensures AcceptedOrdered(CompleteOp(db, token, out, now).value.accepted)
  {
    var c := db.claims[token];
    var a := Acceptance(token, c.source, c.kind, c.slot);
    assert ClaimOk(db, token);
    forall i | 0 <= i < |db.accepted|
      ensures db.accepted[i].token != a.token
      ensures SameStream(db.accepted[i], a) ==> SlotLt(db.accepted[i].slot.value, a.slot.value)
    {
      assert AcceptedOk(db, db.accepted[i]) && ClaimOk(db, db.accepted[i].token);
    }
  }

  lemma CompleteInv(cfg: Config, db: Db, e: Event)
    requires Inv(db) && e.DoComplete?
    ensures Inv(Step(cfg, db, e))
  {
    var db' := Step(cfg, db, e);
    StepEvolves(cfg, db, e);
    OldRowsStay(db, db');
    if Terminal(e.out.state) && CanComplete(db, e.token) {
      var c := db.claims[e.token];
      assert ClaimOk(db, e.token) && OpOk(db, c.op);
      forall i | 0 <= i < |db'.ops| ensures OpOk(db', i) { if i < |db.ops| { assert OpOk(db, i); } }
      AcceptanceIsNext(db, e.token, e.out, e.now);
      assert AcceptedOk(db', db'.accepted[|db.accepted|]);
    }
  }

  lemma RecoveryInv(cfg: Config, db: Db, e: Event)
    requires Inv(db) && (e.DoReap? || e.DoSweep?)
    ensures Inv(Step(cfg, db, e))
  {
    var db' := Step(cfg, db, e);
    StepEvolves(cfg, db, e);
    OldRowsStay(db, db');
    forall i | 0 <= i < |db'.ops| ensures OpOk(db', i) { assert OpOk(db, i); }
  }

  lemma RequeueInv(db: Db, id: nat)
    requires Inv(db) && Requeue(db, id).Some?
    ensures Inv(Requeue(db, id).value)
  {
    var db' := Requeue(db, id).value;
    OldRowsStay(db, db');
    forall i | 0 <= i < |db'.ops| ensures OpOk(db', i) { assert OpOk(db, i); }
  }

  lemma {:induction false} RequeueAllInv(db: Db, picks: seq<nat>)
    requires Inv(db)
    ensures Inv(RequeueAll(db, picks))
    decreases |picks|
  {
    if picks != [] {
      var r := Requeue(db, picks[0]);
      if r.Some? { RequeueInv(db, picks[0]); }
      RequeueAllInv(if r.Some? then r.value else db, picks[1..]);
    }
  }

  lemma StepInv(cfg: Config, db: Db, e: Event)
    requires Inv(db)
    ensures Inv(Step(cfg, db, e))
  {
    match e
    case DoClaim(_, _, _) => ClaimInv(cfg, db, e);
    case DoComplete(_, _, _) => CompleteInv(cfg, db, e);
    case DoReap(_) => RecoveryInv(cfg, db, e);
    case DoSweep(_) => RecoveryInv(cfg, db, e);
    case DoReconcile(picks, _) => RequeueAllInv(db, picks);
    case OperatorRequeue(id) => if Requeue(db, id).Some? { RequeueInv(db, id); }
    case _ => EnqueueInv(cfg, db, e);
  }

  lemma {:induction false} RunInv(cfg: Config, db: Db, es: seq<Event>)
    requires Inv(db)
    ensures Inv(Run(cfg, db, es))
    decreases |es|
  {
    if es != [] {
      StepInv(cfg, db, es[0]);
      RunInv(cfg, Step(cfg, db, es[0]), es[1..]);
    }
  }

  /* ---------- poll slots are consumed in order and once ---------- */

  /** Whatever was enqueued, duplicated, reaped, re-claimed or completed late: each
      (source, kind, epoch, generation) slot and each token is accepted at most once, and
      the accepted slots of a source and kind come in increasing order. */
  lemma SlotsAcceptedOnceInOrder(cfg: Config, db: Db, es: seq<Event>, i: nat, j: nat)
    requires Initial(db)
    requires i < j < |Run(cfg, db, es).accepted|
    ensures var acc := Run(cfg, db, es).accepted;
            && acc[i].token != acc[j].token
            && (acc[i].source == acc[j].source && acc[i].kind == acc[j].kind && Polled(acc[i].kind) ==>
                  acc[i].slot.Some? && acc[j].slot.Some? && SlotLt(acc[i].slot.value, acc[j].slot.value))
  {
    RunInv(cfg, db, es);
    var acc := Run(cfg, db, es).accepted;
    assert AcceptedOk(Run(cfg, db, es), acc[i]) && AcceptedOk(Run(cfg, db, es), acc[j]);
  }

  /** Accepted completions of one metric poll kind on one source. */
  function CountAccepted(accepted: seq<Acceptance>, src: nat, k: Kind): nat {
    if accepted == [] then 0
    else (if accepted[0].source == src && accepted[0].kind == k then 1 else 0)
         + CountAccepted(accepted[1..], src, k)
  }

  lemma {:induction false} CountAppend(a: seq<Acceptance>, b: seq<Acceptance>, src: nat, k: Kind)
    ensures CountAccepted(a + b, src, k) == CountAccepted(a, src, k) + CountAccepted(b, src, k)
  {
    if a == [] {
      assert a + b == b;
    } else {
      assert (a + b)[1..] == a[1..] + b;
      CountAppend(a[1..], b, src, k);
    }
  }

  lemma CountSplit(a: seq<Acceptance>, b: seq<Acceptance>, c: seq<Acceptance>, src: nat, k: Kind)
    requires a <= b <= c
    ensures CountAccepted(c[|a|..], src, k) == CountAccepted(b[|a|..], src, k) + CountAccepted(c[|b|..], src, k)
  {
    assert c[|a|..] == b[|a|..] + c[|b|..];
    CountAppend(b[|a|..], c[|b|..], src, k);
  }

  function PollSlot(db: Db, src: nat, k: Kind): Slot
    requires Polled(k)
  {
    if src < |db.sources| then SlotOf(db.sources[src], k) else Slot(0, 0)
  }

  lemma {:induction false} RequeueAllKeepsSlots(db: Db, picks: seq<nat>, src: nat, k: Kind)
    requires Polled(k)
    ensures PollSlot(RequeueAll(db, picks), src, k) == PollSlot(db, src, k)
    decreases |picks|
  {
    if picks != [] {
      var r := Requeue(db, picks[0]);
      RequeueAllKeepsSlots(if r.Some? then r.value else db, picks[1..], src, k);
    }
  }

  lemma StepAdvancesSlot(cfg: Config, db: Db, e: Event, src: nat, k: Kind)
    requires Inv(db) && src < |db.sources| && MetricPoll(k)
    requires PollSlot(Step(cfg, db, e), src, k).epoch == PollSlot(db, src, k).epoch
    ensures var db' := Step(cfg, db, e);
            db.accepted <= db'.accepted &&
            PollSlot(db', src, k).generation
              == PollSlot(db, src, k).generation + CountAccepted(db'.accepted[|db.accepted|..], src, k)
  {
    var db' := Step(cfg, db, e);
    match e
    case DoReconcile(picks, now) =>
      RequeueAllKeepsSlots(db, picks, src, k);
      RequeueAllEvolves(db, picks);
      assert db'.accepted[|db.accepted|..] == [];
    case DoComplete(token, out, now) =>
      if db' == db {
        assert db'.accepted[|db.accepted|..] == [];
      } else {
        assert ClaimOk(db, token);
        var added := db'.accepted[|db.accepted|..];
        assert added == [Acceptance(token, db.claims[token].source, db.claims[token].kind, db.claims[token].slot)];
        assert added[1..] == [];
      }
    case _ =>
      assert db'.accepted[|db.accepted|..] == [];
  }

  /** Inside an epoch a metric poll generation rises by exactly one per accepted completion
      and by nothing else. */
  lemma {:induction false} GenerationCountsAcceptances(cfg: Config, db: Db, es: seq<Event>, src: nat, k: Kind)
    requires Inv(db) && src < |db.sources| && MetricPoll(k)
    requires PollSlot(Run(cfg, db, es), src, k).epoch == PollSlot(db, src, k).epoch
    ensures var db' := Run(cfg, db, es);
            db.accepted <= db'.accepted &&
            PollSlot(db', src, k).generation
              == PollSlot(db, src, k).generation + CountAccepted(db'.accepted[|db.accepted|..], src, k)
    decreases |es|
  {
    if es == [] {
      assert db.accepted[|db.accepted|..] == [];
    } else {
      var mid, end := Step(cfg, db, es[0]), Run(cfg, db, es);
      StepEvolves(cfg, db, es[0]);
      RunEvolves(cfg, mid, es[1..]);
      assert SourceLe(db.sources[src], mid.sources[src]) && SourceLe(mid.sources[src], end.sources[src]);
      StepInv(cfg, db, es[0]);
      StepAdvancesSlot(cfg, db, es[0], src, k);
      GenerationCountsAcceptances(cfg, mid, es[1..], src, k);
      CountSplit(db.accepted, mid.accepted, end.accepted, src, k);
    }
  }

  /* ---------- old tokens are inert ---------- */

  lemma {:induction false} DeadStaysDead(cfg: Config, db: Db, es: seq<Event>, token: nat)
    requires Inv(db) && token < |db.claims| && Dead(db, token)
    ensures var db' := Run(cfg, db, es); Inv(db') && db.claims <= db'.claims && Dead(db', token)
    decreases |es|
  {
    if es != [] {
      StepInv(cfg, db, es[0]);
      StepEvolves(cfg, db, es[0]);
      OldRowsStay(db, Step(cfg, db, es[0]));
      DeadStaysDead(cfg, Step(cfg, db, es[0]), es[1..], token);
    }
  }

  lemma DeadIsRejected(db: Db, token: nat, out: Outcome, now: int)
    requires Inv(db) && token < |db.claims| && Dead(db, token) && Terminal(out.state)
    ensures CompleteOp(db, token, out, now) == None
  {
    assert ClaimOk(db, token);
  }

  lemma AcceptsNoDead(cfg: Config, db: Db, e: Event, token: nat)
    requires Inv(db) && token < |db.claims| && Dead(db, token)
    ensures var db' := Step(cfg, db, e);
            && db.accepted <= db'.accepted
            && forall i :: |db.accepted| <= i < |db'.accepted| ==> db'.accepted[i].token != token
  {
    assert ClaimOk(db, token);
    if e.DoReconcile? { RequeueAllEvolves(db, e.picks); }
  }

  lemma {:induction false} NeverAcceptedAgain(cfg: Config, db: Db, es: seq<Event>, token: nat)
    requires Inv(db) && token < |db.claims| && Dead(db, token)
    ensures var db' := Run(cfg, db, es);
            && db.accepted <= db'.accepted
            && forall i :: |db.accepted| <= i < |db'.accepted| ==> db'.accepted[i].token != token
    decreases |es|
  {
    if es != [] {
      var mid, db' := Step(cfg, db, es[0]), Run(cfg, db, es);
      AcceptsNoDead(cfg, db, es[0], token);
      StepInv(cfg, db, es[0]);
      StepEvolves(cfg, db, es[0]);
      OldRowsStay(db, mid);
      NeverAcceptedAgain(cfg, mid, es[1..], token);
      forall i | |db.accepted| <= i < |db'.accepted| ensures db'.accepted[i].token != token {
        if i < |mid.accepted| { assert db'.accepted[i] == mid.accepted[i]; }
      }
    }
  }

  /** Once a token's operation has been reaped, requeued or completed, no later state
      accepts it: presenting it changes nothing, however long the worker was away. */
  lemma StaleTokenIsInert(cfg: Config, db: Db, es: seq<Event>, token: nat, out: Outcome, now: int)
    requires Inv(db) && token < |db.claims| && Dead(db, token) && Terminal(out.state)
    ensures var db' := Run(cfg, db, es);
            && CompleteOp(db', token, out, now) == None
            && (forall i :: |db.accepted| <= i < |db'.accepted| ==> db'.accepted[i].token != token)
  {
    DeadStaysDead(cfg, db, es, token);
    DeadIsRejected(Run(cfg, db, es), token, out, now);
    NeverAcceptedAgain(cfg, db, es, token);
  }

  /** What kills a token: completing under it, the reaper taking its operation back, a
      requeue of its operation, or the operation being handed to a newer token. */
  lemma WhatKillsTokens(cfg: Config, db: Db, token: nat, out: Outcome, now: int)
    requires Inv(db) && token < |db.claims| && Terminal(out.state)
    ensures db.claims[token].op < |db.ops|
    ensures CompleteOp(db, token, out, now).Some? ==> Dead(CompleteOp(db, token, out, now).value, token)
    ensures Orphaned(cfg, db.ops[db.claims[token].op], now) ==> Dead(Reap(cfg, db, now), token)
    ensures forall u :: token < u < |db.claims| && db.claims[u].op == db.claims[token].op && !Dead(db, u)
              ==> Dead(db, token)
    ensures forall b :: ClaimOp(db, db.claims[token].op, now, b).Some? ==> Dead(db, token)
    ensures Requeue(db, db.claims[token].op).Some? ==> Dead(Requeue(db, db.claims[token].op).value, token)
  {
    assert ClaimOk(db, token);
    assert OpOk(db, db.claims[token].op);
  }

  /* ---------- problem polls: only the newest claim completes ---------- */

  lemma OnlyNewestProblemClaimCompletes(cfg: Config, db: Db, es: seq<Event>, t: nat, u: nat)
    requires Initial(db)
    requires t < u < |Run(cfg, db, es).claims|
    requires Run(cfg, db, es).claims[t].kind == Problem && Run(cfg, db, es).claims[u].kind == Problem
    requires Run(cfg, db, es).claims[t].source == Run(cfg, db, es).claims[u].source
    ensures !CompletionFence(Run(cfg, db, es), t)
  {
    RunInv(cfg, db, es);
    var db' := Run(cfg, db, es);
    assert ClaimOk(db', t) && ClaimOk(db', u);
  }

  /* ---------- the zombie sweep ---------- */

  /** Sweeping an operation is exactly finding its claim fence false. */
  lemma ZombieIffFenced(s: Source, o: Op)
    requires o.state == Pending && o.token == None
    ensures Zombie(s, o) <==> !Fence(s, o)
  {
  }

  lemma FenceStaysFalse(db: Db, db': Db, id: nat)
    requires Inv(db) && Evolves(db, db') && id < |db.ops|
    requires !FenceHolds(db, id)
    ensures !FenceHolds(db', id)
  {
    assert OpOk(db, id);
    var s, s' := db.sources[db.ops[id].source], db'.sources[db.ops[id].source];
    assert SourceLe(s, s') && SameIdentity(db.ops[id], db'.ops[id]);
  }

  /** Sound forever: a swept operation fails its claim fence in every later state, requeued
      or not, so no worker ever claims it again. */
  lemma SweptIsNeverClaimable(cfg: Config, db: Db, sweepAt: int, es: seq<Event>, id: nat, now: int, noTargets: bool)
    requires Inv(db) && id < |db.ops| && Swept(db.sources, db.ops[id], sweepAt) != db.ops[id]
    ensures var db' := Run(cfg, Sweep(db, sweepAt), es);
            && id < |db'.ops|
            && !FenceHolds(db', id)
            && ClaimOp(db', id, now, noTargets) == None
  {
    StepInv(cfg, db, DoSweep(sweepAt));
    StepEvolves(cfg, db, DoSweep(sweepAt));
    var mid := Step(cfg, db, DoSweep(sweepAt));
    ZombieIffFenced(db.sources[db.ops[id].source], db.ops[id]);
    FenceStaysFalse(db, mid, id);
    RunEvolves(cfg, mid, es);
    FenceStaysFalse(mid, Run(cfg, mid, es), id);
  }

  /** Complete now: right after a sweep every pending unclaimed operation of the five
      non-problem kinds is claimable, and the sweep touched no operation that was. */
  lemma SweepLeavesExactlyTheClaimable(db: Db, now: int, id: nat)
    requires Inv(db) && id < |db.ops|
    ensures var o' := Sweep(db, now).ops[id];
            && (o'.state == Pending && o'.token == None && o'.kind != Problem ==> CanClaim(Sweep(db, now), id))
            && (CanClaim(db, id) ==> o' == db.ops[id])
  {
    assert OpOk(db, id);
    var o := db.ops[id];
    if o.state == Pending { ZombieIffFenced(db.sources[o.source], o); }
  }

  /** An operation inserted from the current source row can be claimed at once; inserted
      from an older row it is at worst a zombie. */
  lemma FreshOperationIsClaimable(db: Db, src: nat, kind: Kind, now: int)
    requires src < |db.sources| && kind != Problem
    ensures CanClaim(db.(ops := db.ops + [NewOp(ReadOf(db, src), kind, true, now)]), |db.ops|)
  {
    assert (db.ops + [NewOp(ReadOf(db, src), kind, true, now)])[|db.ops|].source == src;
  }

  /* ---------- bounded recovery ---------- */

  function ClaimsOf(claims: seq<Claim>, id: nat): nat {
    if claims == [] then 0
    else ClaimsOf(claims[..|claims| - 1], id) + (if claims[|claims| - 1].op == id then 1 else 0)
  }

  ghost predicate ClaimsBounded(db: Db) {
    && (forall i :: 0 <= i < |db.ops| ==>
          ClaimsOf(db.claims, i) <= db.ops[i].recovery + (if db.ops[i].state == Pending then 0 else 1))
    && (forall i :: |db.ops| <= i ==> ClaimsOf(db.claims, i) == 0)
  }

  lemma ClaimsOfSnoc(claims: seq<Claim>, c: Claim, id: nat)
    ensures ClaimsOf(claims + [c], id) == ClaimsOf(claims, id) + (if c.op == id then 1 else 0)
  {
    assert (claims + [c])[..|claims|] == claims;
  }

  lemma {:induction false} RequeueAllBounded(db: Db, picks: seq<nat>)
    requires ClaimsBounded(db)
    ensures ClaimsBounded(RequeueAll(db, picks))
    decreases |picks|
  {
    if picks != [] {
      var r := Requeue(db, picks[0]);
      RequeueAllBounded(if r.Some? then r.value else db, picks[1..]);
    }
  }

  lemma ClaimBounded(db: Db, id: nat, now: int, noTargets: bool)
    requires ClaimsBounded(db) && CanClaim(db, id)
    ensures ClaimsBounded(ClaimOp(db, id, now, noTargets).value)
  {
    var db' := ClaimOp(db, id, now, noTargets).value;
    forall i: nat ensures ClaimsOf(db'.claims, i) == ClaimsOf(db.claims, i) + (if id == i then 1 else 0) {
      ClaimsOfSnoc(db.claims, db'.claims[|db.claims|], i);
    }
  }

  lemma CompleteBounded(db: Db, token: nat, out: Outcome, now: int)
    requires ClaimsBounded(db) && Terminal(out.state) && CanComplete(db, token)
    ensures ClaimsBounded(CompleteOp(db, token, out, now).value)
  {
  }

  lemma StepBounded(cfg: Config, db: Db, e: Event)
    requires ClaimsBounded(db)
    ensures ClaimsBounded(Step(cfg, db, e))
  {
    match e
    case DoReconcile(picks, now) => RequeueAllBounded(db, picks);
    case DoClaim(id, noTargets, now) => if CanClaim(db, id) { ClaimBounded(db, id, now, noTargets); }
    case DoComplete(token, out, now) =>
      if Terminal(out.state) && CanComplete(db, token) { CompleteBounded(db, token, out, now); }
    case _ =>
  }

  function OperatorRequeues(es: seq<Event>, id: nat): nat {
    if es == [] then 0
    else (if es[0] == OperatorRequeue(id) then 1 else 0) + OperatorRequeues(es[1..], id)
  }

  function RecoveryOf(db: Db, id: nat): nat {
    if id < |db.ops| then db.ops[id].recovery else 0
  }

  lemma {:induction false} RequeueAllRecovery(db: Db, picks: seq<nat>, id: nat)
    requires forall i, j :: 0 <= i < j < |picks| ==> picks[i] != picks[j]
    ensures RecoveryOf(RequeueAll(db, picks), id) <= RecoveryOf(db, id) + (if id in picks then 1 else 0)
    decreases |picks|
  {
    if picks != [] {
      var r := Requeue(db, picks[0]);
      RequeueAllRecovery(if r.Some? then r.value else db, picks[1..], id);
    }
  }

  lemma StepRecovery(cfg: Config, db: Db, e: Event, id: nat)
    ensures RecoveryOf(Step(cfg, db, e), id) <= RecoveryOf(db, id) + (if e == OperatorRequeue(id) then 1 else 0)
            || RecoveryOf(Step(cfg, db, e), id) <= cfg.recoveryMax
  {
    match e
    case DoReconcile(picks, now) =>
      if ReconcilePicks(cfg, db, picks, now) { RequeueAllRecovery(db, picks, id); }
    case _ =>
  }

  lemma {:induction false} RunRecovery(cfg: Config, db: Db, es: seq<Event>, id: nat, base: nat)
    requires Inv(db) && ClaimsBounded(db) && RecoveryOf(db, id) <= cfg.recoveryMax + base
    ensures ClaimsBounded(Run(cfg, db, es))
    ensures RecoveryOf(Run(cfg, db, es), id) <= cfg.recoveryMax + base + OperatorRequeues(es, id)
    decreases |es|
  {
    if es != [] {
      StepInv(cfg, db, es[0]);
      StepBounded(cfg, db, es[0]);
      StepRecovery(cfg, db, es[0], id);
      RunRecovery(cfg, Step(cfg, db, es[0]), es[1..], id, base + (if es[0] == OperatorRequeue(id) then 1 else 0));
    }
  }

  /** An operation is handed out at most RECOVERY_MAX + 1 times by the automatic paths; each
      operator requeue, which is not capped, allows one more. */
  lemma ClaimsPerOperationBounded(cfg: Config, db: Db, es: seq<Event>, id: nat)
    requires Initial(db)
    ensures ClaimsOf(Run(cfg, db, es).claims, id) <= cfg.recoveryMax + 1 + OperatorRequeues(es, id)
  {
    RunRecovery(cfg, db, es, id, 0);
  }
}
