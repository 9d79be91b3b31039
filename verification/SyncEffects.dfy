/**
 What each transaction of the operation protocol leaves behind, in the tables' own terms: when a
 claim or a completion goes through, which rows recovery takes, and what a source's evidence
 decides for the problem operations that wait for it.
 */
module SyncEffects {
  import opened Common
  import opened SyncOperations
  import opened SyncSafety

  /** The operation is numbered for the poll that follows the source's last one. */
  predicate IsNext(last: Slot, slot: Option<Slot>) {
    slot == Some(Slot(last.epoch, last.generation + 1))
  }

  /* ---------- claims ---------- */

  /** Exactly when a worker gets an operation: it is waiting, the source is still what it was
      when the operation was created, a metric poll is the next one, and a problem poll finds
      current evidence and an admitted epoch. */
  lemma ClaimedIff(cfg: Config, db: Db, id: nat, noTargets: bool, now: int)
    requires id < |db.ops| && db.ops[id].source < |db.sources|
    ensures var o, s := db.ops[id], db.sources[db.ops[id].source];
      Step(cfg, db, DoClaim(id, noTargets, now)).claims != db.claims <==>
        && o.state == Pending && o.token == None
        && o.authority == s.authority
        && (o.kind == MetricDefinition ==> IsNext(s.definitionSlot, o.slot))
        && (o.kind == CurrentState ==> IsNext(s.currentSlot, o.slot))
        && (o.kind == Problem ==> s.evidence == Current && s.admittedEpoch == Some(s.problemSlot.epoch))
  {
  }

  /** What a claim that goes through changes: the operation runs under a token never handed out
      before, the claim records what its completion will be compared with, and a problem poll
      consumes its slot at once. */
  lemma ClaimEffect(cfg: Config, db: Db, id: nat, noTargets: bool, now: int)
    requires id < |db.ops| && db.ops[id].source < |db.sources|
    requires Step(cfg, db, DoClaim(id, noTargets, now)).claims != db.claims
    ensures var db', o, src := Step(cfg, db, DoClaim(id, noTargets, now)), db.ops[id], db.ops[id].source;
      var s := db.sources[src];
      var slot := if o.kind == Problem then Some(Slot(s.problemSlot.epoch, s.problemSlot.generation + 1)) else o.slot;
      && |db'.ops| == |db.ops| && (forall i :: 0 <= i < |db.ops| && i != id ==> db'.ops[i] == db.ops[i])
      && |db'.sources| == |db.sources|
      && (forall i :: 0 <= i < |db.sources| && i != src ==> db'.sources[i] == db.sources[i])
      && db'.ops[id].token == Some(|db.claims|) && db'.ops[id].startedAt == now && db'.ops[id].slot == slot
      && db'.ops[id].recovery == o.recovery
      && db'.ops[id].state == (if o.kind == History && noTargets then Succeeded else Running)
      && db'.claims == db.claims + [Claim(id, src, o.kind, s.authority, s.binding, slot)]
      && db'.sources[src] == (if o.kind == Problem then s.(problemSlot := slot.value) else s)
      && db'.accepted == db.accepted
  {
  }

  /* ---------- completions ---------- */

  /** Exactly when a worker's result is accepted: it still holds the running operation, nothing
      its claim recorded has moved on, and a result whose evidence row is unique per operation
      is the operation's first. */
  lemma AcceptedIff(cfg: Config, db: Db, token: nat, out: Outcome, now: int)
    requires Inv(db) && token < |db.claims| && out.state !in {Pending, Running}
    ensures db.claims[token].op < |db.ops| && db.claims[token].source < |db.sources|
    ensures var c := db.claims[token];
      var o, s := db.ops[c.op], db.sources[c.source];
      Step(cfg, db, DoComplete(token, out, now)).accepted != db.accepted <==>
        && o.state == Running && o.token == Some(token)
        && s.authority == c.authority
        && (c.kind in {Validation, HostInventory, MetricDefinition} ==> s.binding == c.binding)
        && (c.kind == MetricDefinition ==> IsNext(s.definitionSlot, c.slot))
        && (c.kind == CurrentState ==> IsNext(s.currentSlot, c.slot))
        && (c.kind == Problem ==> c.slot == Some(s.problemSlot))
        && (c.kind in {HostInventory, MetricDefinition} ==> !Completed(db, c.op))
  {
    assert ClaimOk(db, token);
  }

  /** What an accepted completion writes: the outcome's evidence on its source, the consumed
      poll slot, the operation's final state; and nothing on any other row. */
  lemma CompletionEffect(cfg: Config, db: Db, token: nat, out: Outcome, now: int)
    requires Inv(db) && token < |db.claims| && out.state !in {Pending, Running}
    requires Step(cfg, db, DoComplete(token, out, now)).accepted != db.accepted
    ensures db.claims[token].op < |db.ops| && db.claims[token].source < |db.sources|
    ensures var c, db' := db.claims[token], Step(cfg, db, DoComplete(token, out, now));
      && |db'.sources| == |db.sources| && |db.ops| <= |db'.ops|
      && db'.sources[c.source].evidence == out.evidence
      && (forall i :: 0 <= i < |db.sources| && i != c.source ==> db'.sources[i] == db.sources[i])
      && (var s, s' := db.sources[c.source], db'.sources[c.source];
          && s'.authority == s.authority && s'.binding == s.binding && s'.admittedEpoch == s.admittedEpoch
          && s'.problemSlot == s.problemSlot
          && Some(s'.definitionSlot) == (if c.kind == MetricDefinition then c.slot else Some(s.definitionSlot))
          && Some(s'.currentSlot) == (if c.kind == CurrentState then c.slot else Some(s.currentSlot)))
      && (forall i :: 0 <= i < |db.ops| && i != c.op ==> db'.ops[i] == db.ops[i])
      && (var o, o' := db.ops[c.op], db'.ops[c.op];
          && o'.state == (if c.kind == Problem && !out.completeSnapshot then ReconciliationRequired else out.state)
          && o'.completedAt == now && o'.recovery == o.recovery
          && o'.token == (if c.kind == Problem then None else Some(token)))
      && db'.claims == db.claims
      && db'.accepted == db.accepted + [Acceptance(token, c.source, c.kind, c.slot)]
  {
    assert ClaimOk(db, token) && OpOk(db, db.claims[token].op);
  }

  predicate Waits(o: Op, src: nat, kind: Kind) { o.source == src && o.kind == kind && o.state in {Pending, Running} }

  /** The work a completion leaves behind it: an inventory refresh for a problem whose host is
      not known, unless one is already due, or the next page of a history window; each can be
      claimed at once. */
  lemma FollowUpEffect(cfg: Config, db: Db, token: nat, out: Outcome, now: int, noTargets: bool)
    requires Inv(db) && token < |db.claims| && out.state !in {Pending, Running}
    requires Step(cfg, db, DoComplete(token, out, now)).accepted != db.accepted
    ensures var c, db' := db.claims[token], Step(cfg, db, DoComplete(token, out, now));
      var refresh := c.kind == Problem && out.reassociate
                     && forall i :: 0 <= i < |db.ops| ==> !Waits(db.ops[i], c.source, HostInventory);
      var page := c.kind == History && out.chain;
      && |db'.ops| == |db.ops| + (if refresh || page then 1 else 0)
      && (c.kind == Problem && out.reassociate ==>
            exists i :: 0 <= i < |db'.ops| && Waits(db'.ops[i], c.source, HostInventory))
      && (refresh || page ==>
            && Waits(db'.ops[|db.ops|], c.source, if refresh then HostInventory else History)
            && db'.ops[|db.ops|].createdAt == now && db'.ops[|db.ops|].recovery == 0
            && Step(cfg, db', DoClaim(|db.ops|, noTargets, now)).claims != db'.claims)
  {
    var c, db' := db.claims[token], Step(cfg, db, DoComplete(token, out, now));
    assert ClaimOk(db, token);
    if c.kind == Problem && out.reassociate {
      var ops := db.ops[c.op := db'.ops[c.op]];
      LiveIsWaiting(db, ops, c);
      if |db'.ops| > |db.ops| {
        assert Waits(db'.ops[|db.ops|], c.source, HostInventory);
      } else {
        var i :| 0 <= i < |db.ops| && Waits(db.ops[i], c.source, HostInventory);
        assert db'.ops[i] == db.ops[i];
      }
    }
  }

  lemma LiveIsWaiting(db: Db, ops: seq<Op>, c: Claim)
    requires c.op < |db.ops| && c.kind == Problem && db.ops[c.op].kind == c.kind
    requires |ops| == |db.ops| && ops == db.ops[c.op := ops[c.op]] && ops[c.op].kind == c.kind
    ensures LiveInventory(ops, c.source) <==>
              exists i :: 0 <= i < |db.ops| && Waits(db.ops[i], c.source, HostInventory)
  {
    if LiveInventory(ops, c.source) {
      var i :| 0 <= i < |ops| && ops[i].source == c.source && ops[i].kind == HostInventory
               && ops[i].state in {Pending, Running};
      assert Waits(db.ops[i], c.source, HostInventory);
    }
    if i :| 0 <= i < |db.ops| && Waits(db.ops[i], c.source, HostInventory) {
      assert ops[i] == db.ops[i];
    }
  }

  /** A source that moved on never takes back: a token claimed under an earlier authority is
      refused now and in every later state. */
  lemma SupersededNeverCompletes(cfg: Config, db: Db, es: seq<Event>, token: nat, out: Outcome, now: int)
    requires Inv(db) && token < |db.claims| && out.state !in {Pending, Running}
    requires db.claims[token].source < |db.sources|
    requires db.sources[db.claims[token].source].authority != db.claims[token].authority
    ensures var db' := Run(cfg, db, es); Step(cfg, db', DoComplete(token, out, now)) == db'
  {
    var db' := Run(cfg, db, es);
    RunInv(cfg, db, es);
    RunEvolves(cfg, db, es);
    var c := db.claims[token];
    assert ClaimOk(db, token) && ClaimOk(db', token) && OpOk(db, c.op) && db'.claims[token] == c;
    assert SourceLe(db.sources[c.source], db'.sources[c.source]);
    AcceptedIff(cfg, db', token, out, now);
  }

  /* ---------- recovery ---------- */

  /** The reaper takes exactly the operations that have run for longer than the lease: back to
      waiting while recoveries are left, failed for good after that. */
  lemma ReapTakesExactlyTheOverdue(cfg: Config, db: Db, now: int, i: nat)
    requires i < |db.ops|
    ensures var db' := Step(cfg, db, DoReap(now));
      var o := db.ops[i];
      var overdue := o.state == Running && o.startedAt < now - cfg.leaseSeconds;
      && db' == db.(ops := db'.ops) && |db'.ops| == |db.ops|
      && (!overdue ==> db'.ops[i] == o)
      && (overdue ==> db'.ops[i].token == None)
      && (overdue && o.recovery < cfg.recoveryMax ==>
            db'.ops[i].state == Pending && db'.ops[i].recovery == o.recovery + 1)
      && (overdue && o.recovery >= cfg.recoveryMax ==>
            db'.ops[i].state == FailedTerminal && db'.ops[i].recovery == o.recovery && db'.ops[i].completedAt == now)
  {
  }

  /** A worker inside its lease keeps its operation: its result is accepted after the reap
      exactly if it was before. */
  lemma ReapSparesTheLease(cfg: Config, db: Db, at: int, token: nat, out: Outcome, now: int)
    requires Inv(db) && token < |db.claims| && out.state !in {Pending, Running}
    requires db.claims[token].op < |db.ops| && db.ops[db.claims[token].op].startedAt >= at - cfg.leaseSeconds
    ensures var db' := Step(cfg, db, DoReap(at));
      Step(cfg, db', DoComplete(token, out, now)).accepted != db'.accepted
      <==> Step(cfg, db, DoComplete(token, out, now)).accepted != db.accepted
  {
    var db' := Step(cfg, db, DoReap(at));
    StepInv(cfg, db, DoReap(at));
    ReapTakesExactlyTheOverdue(cfg, db, at, db.claims[token].op);
    AcceptedIff(cfg, db, token, out, now);
    AcceptedIff(cfg, db', token, out, now);
  }

  /** The sweep ends exactly the waiting operations that their claim fence refuses for good. */
  lemma SweepEndsExactlyTheFenced(cfg: Config, db: Db, now: int, i: nat)
    requires i < |db.ops| && db.ops[i].source < |db.sources|
    ensures var db' := Step(cfg, db, DoSweep(now));
      var o, s := db.ops[i], db.sources[db.ops[i].source];
      var fenced := || o.authority != s.authority
                    || (o.kind == MetricDefinition && !IsNext(s.definitionSlot, o.slot))
                    || (o.kind == CurrentState && !IsNext(s.currentSlot, o.slot));
      && db' == db.(ops := db'.ops) && |db'.ops| == |db.ops|
      && db'.ops[i] == (if o.state == Pending && o.token == None && fenced
                        then o.(state := FailedTerminal, completedAt := now) else o)
  {
  }

  predicate Requeueable(o: Op) { o.state == ReconciliationRequired || o.state == FailedTerminal }

  /** The row a requeue leaves. */
  predicate Reopened(o: Op, o': Op) {
    && o'.state == Pending && o'.token == None && o'.recovery == o.recovery + 1
    && o'.source == o.source && o'.kind == o.kind && o'.authority == o.authority && o'.slot == o.slot
  }

  /** A requeue reopens one operation that ended badly and turns its source's
      reconciliation_required evidence current; whatever else it finds it leaves alone. */
  lemma RequeueEffect(cfg: Config, db: Db, id: nat)
    requires id < |db.ops| && db.ops[id].source < |db.sources|
    ensures var db', src := Step(cfg, db, OperatorRequeue(id)), db.ops[id].source;
      if Requeueable(db.ops[id]) then
        && |db'.ops| == |db.ops| && (forall i :: 0 <= i < |db.ops| && i != id ==> db'.ops[i] == db.ops[i])
        && Reopened(db.ops[id], db'.ops[id])
        && |db'.sources| == |db.sources|
        && (forall i :: 0 <= i < |db.sources| && i != src ==> db'.sources[i] == db.sources[i])
        && db'.sources[src] == db.sources[src].(evidence := db'.sources[src].evidence)
        && db'.sources[src].evidence
             == (if db.sources[src].evidence == EvidenceReconciliation then Current else db.sources[src].evidence)
        && db' == db.(ops := db'.ops, sources := db'.sources)
      else db' == db
  {
  }

  /** A requeued operation can be claimed if and only if its source has not moved on and, for a
      problem poll, the evidence was current or awaited reconciliation. */
  lemma RequeuedIsClaimableIff(cfg: Config, db: Db, id: nat, noTargets: bool, now: int)
    requires id < |db.ops| && db.ops[id].source < |db.sources| && Requeueable(db.ops[id])
    ensures var db', o, s := Step(cfg, db, OperatorRequeue(id)), db.ops[id], db.sources[db.ops[id].source];
      Step(cfg, db', DoClaim(id, noTargets, now)).claims != db'.claims <==>
        && o.authority == s.authority
        && (o.kind == MetricDefinition ==> IsNext(s.definitionSlot, o.slot))
        && (o.kind == CurrentState ==> IsNext(s.currentSlot, o.slot))
        && (o.kind == Problem ==> s.evidence in {Current, EvidenceReconciliation}
                                  && s.admittedEpoch == Some(s.problemSlot.epoch))
  {
    RequeueEffect(cfg, db, id);
    ClaimedIff(cfg, Step(cfg, db, OperatorRequeue(id)), id, noTargets, now);
  }

  /** Requeueing distinct rows one by one, row by row. */
  lemma {:induction false} RequeueAllRow(db: Db, picks: seq<nat>, i: nat)
    requires i < |db.ops|
    requires forall j, k :: 0 <= j < k < |picks| ==> picks[j] != picks[k]
    requires forall k :: 0 <= k < |picks| ==> Requeue(db, picks[k]).Some?
    ensures var db' := RequeueAll(db, picks);
      |db'.ops| == |db.ops| && if i in picks then Reopened(db.ops[i], db'.ops[i]) else db'.ops[i] == db.ops[i]
    decreases |picks|
  {
    if picks != [] {
      var mid := Requeue(db, picks[0]).value;
      assert i in picks <==> i == picks[0] || i in picks[1..];
      RequeueAllRow(mid, picks[1..], i);
    }
  }

  lemma {:induction false} RequeueAllLength(db: Db, picks: seq<nat>)
    ensures |RequeueAll(db, picks).ops| == |db.ops|
    decreases |picks|
  {
    if picks != [] {
      var r := Requeue(db, picks[0]);
      RequeueAllLength(if r.Some? then r.value else db, picks[1..]);
    }
  }

  /** A reconciler pass reopens only work that ended badly, has recoveries left, ended long
      enough ago and has nothing of its kind waiting for the source; what it leaves out of that
      ended later than all it took, and it took 32. */
  lemma ReconcilerReopensIdleWork(cfg: Config, db: Db, picks: seq<nat>, now: int, i: nat)
    requires Inv(db) && i < |db.ops| && ReconcilePicks(cfg, db, picks, now)
    ensures var db', o := Step(cfg, db, DoReconcile(picks, now)), db.ops[i];
      var idle := && Requeueable(o) && o.recovery < cfg.recoveryMax && o.completedAt < now - cfg.backoffSeconds
                  && forall j :: 0 <= j < |db.ops| ==> !Waits(db.ops[j], o.source, o.kind);
      && |db'.ops| == |db.ops| && db'.claims == db.claims && db'.accepted == db.accepted
      && (db'.ops[i] != o ==> idle && Reopened(o, db'.ops[i]))
      && (idle && db'.ops[i] == o ==>
            |picks| == 32 && forall k :: 0 <= k < |picks| ==>
              picks[k] < |db.ops| && db.ops[picks[k]].completedAt <= o.completedAt
              && db'.ops[picks[k]] != db.ops[picks[k]])
  {
    var db' := Step(cfg, db, DoReconcile(picks, now));
    forall k | 0 <= k < |picks| ensures Requeue(db, picks[k]).Some? {
      assert RequeueCandidate(cfg, db, picks[k], now) && OpOk(db, picks[k]);
    }
    RequeueAllEvolves(db, picks);
    RequeueAllRow(db, picks, i);
    forall k | 0 <= k < |picks| ensures db'.ops[picks[k]] != db.ops[picks[k]] {
      assert RequeueCandidate(cfg, db, picks[k], now);
      RequeueAllRow(db, picks, picks[k]);
    }
    CandidateIsIdle(cfg, db, i, now);
  }

  lemma CandidateIsIdle(cfg: Config, db: Db, i: nat, now: int)
    requires i < |db.ops|
    ensures var o := db.ops[i];
      RequeueCandidate(cfg, db, i, now) <==>
        && Requeueable(o) && o.recovery < cfg.recoveryMax && o.completedAt < now - cfg.backoffSeconds
        && forall j :: 0 <= j < |db.ops| ==> !Waits(db.ops[j], o.source, o.kind)
  {
    var o := db.ops[i];
    if LiveSuccessor(db.ops, o) {
      var j :| 0 <= j < |db.ops| && db.ops[j].source == o.source && db.ops[j].kind == o.kind
               && db.ops[j].state in {Pending, Running};
      assert Waits(db.ops[j], o.source, o.kind);
    }
    if j :| 0 <= j < |db.ops| && Waits(db.ops[j], o.source, o.kind) { assert LiveSuccessor(db.ops, o); }
  }

  /* ---------- evidence decides about problem polls ---------- */

  /** The steps that make a source's evidence current again: an accepted completion that says
      so, a requeue of one of its operations while it awaits reconciliation, or a change from
      outside. */
  predicate Restores(cfg: Config, db: Db, e: Event, src: nat)
    requires src < |db.sources|
  {
    match e
    case DoComplete(token, out, now) =>
      Step(cfg, db, e).accepted != db.accepted && token < |db.claims| && db.claims[token].source == src
      && out.evidence == Current
    case OperatorRequeue(id) =>
      id < |db.ops| && db.ops[id].source == src && Requeueable(db.ops[id])
      && db.sources[src].evidence == EvidenceReconciliation
    case DoReconcile(picks, now) =>
      ReconcilePicks(cfg, db, picks, now) && db.sources[src].evidence == EvidenceReconciliation
      && exists k :: 0 <= k < |picks| && picks[k] < |db.ops| && db.ops[picks[k]].source == src
    case Reconfigure(s, to) => s == src && Reconfigures(db.sources[src], to) && to.evidence == Current
    case _ => false
  }

  lemma {:induction false} RequeueAllEvidence(db: Db, picks: seq<nat>, src: nat)
    requires src < |db.sources|
    requires forall j, k :: 0 <= j < k < |picks| ==> picks[j] != picks[k]
    requires forall k :: 0 <= k < |picks| ==> Requeue(db, picks[k]).Some?
    ensures |RequeueAll(db, picks).sources| == |db.sources|
    ensures RequeueAll(db, picks).sources[src].evidence
         == (if db.sources[src].evidence == EvidenceReconciliation
                && exists k :: 0 <= k < |picks| && picks[k] < |db.ops| && db.ops[picks[k]].source == src
             then Current else db.sources[src].evidence)
    decreases |picks|
  {
    if picks != [] {
      var mid, tail := Requeue(db, picks[0]).value, picks[1..];
      assert forall k :: 0 <= k < |tail| ==> mid.ops[tail[k]].source == db.ops[tail[k]].source;
      RequeueAllEvidence(mid, tail, src);
      if k :| 0 <= k < |picks| && db.ops[picks[k]].source == src && k > 0 { assert tail[k - 1] == picks[k]; }
    }
  }

  /** One step makes evidence that is not current current exactly in these cases. */
  lemma CurrentAgainIff(cfg: Config, db: Db, e: Event, src: nat)
    requires Inv(db) && src < |db.sources| && db.sources[src].evidence != Current
    ensures |Step(cfg, db, e).sources| == |db.sources|
    ensures Step(cfg, db, e).sources[src].evidence == Current <==> Restores(cfg, db, e, src)
  {
    match e
    case DoReconcile(picks, now) =>
      if ReconcilePicks(cfg, db, picks, now) {
        forall k | 0 <= k < |picks| ensures Requeue(db, picks[k]).Some? {
          assert RequeueCandidate(cfg, db, picks[k], now) && OpOk(db, picks[k]);
        }
        RequeueAllEvidence(db, picks, src);
      }
    case DoComplete(token, out, now) =>
    case OperatorRequeue(id) =>
    case _ =>
  }

  predicate NothingRestores(cfg: Config, db: Db, es: seq<Event>, src: nat)
    requires src < |db.sources|
    decreases |es|
  {
    es == [] || (!Restores(cfg, db, es[0], src)
                 && src < |Step(cfg, db, es[0]).sources| && NothingRestores(cfg, Step(cfg, db, es[0]), es[1..], src))
  }

  /** After evidence other than current no problem operation of the source is handed out, in any
      continuation, until one of those steps makes it current again. */
  lemma {:induction false} NoProblemClaimWithoutEvidence(
      cfg: Config, db: Db, es: seq<Event>, src: nat, id: nat, noTargets: bool, now: int)
    requires Inv(db) && src < |db.sources| && db.sources[src].evidence != Current
    requires NothingRestores(cfg, db, es, src)
    ensures var db' := Run(cfg, db, es);
      && src < |db'.sources| && db'.sources[src].evidence != Current
      && (id < |db'.ops| && db'.ops[id].source == src && db'.ops[id].kind == Problem ==>
            Step(cfg, db', DoClaim(id, noTargets, now)) == db')
    decreases |es|
  {
    if es != [] {
      CurrentAgainIff(cfg, db, es[0], src);
      StepInv(cfg, db, es[0]);
      NoProblemClaimWithoutEvidence(cfg, Step(cfg, db, es[0]), es[1..], src, id, noTargets, now);
    }
  }

  /** So a degraded completion closes its source's problem polls on the spot. */
  lemma DegradedCompletionClosesProblemPolls(
      cfg: Config, db: Db, token: nat, out: Outcome, at: int, es: seq<Event>, id: nat, noTargets: bool, now: int)
    requires Inv(db) && token < |db.claims| && out.state !in {Pending, Running} && out.evidence != Current
    requires Step(cfg, db, DoComplete(token, out, at)).accepted != db.accepted
    requires db.claims[token].source < |Step(cfg, db, DoComplete(token, out, at)).sources|
    requires NothingRestores(cfg, Step(cfg, db, DoComplete(token, out, at)), es, db.claims[token].source)
    ensures var db' := Run(cfg, Step(cfg, db, DoComplete(token, out, at)), es);
      id < |db'.ops| && db'.ops[id].source == db.claims[token].source && db'.ops[id].kind == Problem ==>
        Step(cfg, db', DoClaim(id, noTargets, now)) == db'
  {
    CompletionEffect(cfg, db, token, out, at);
    StepInv(cfg, db, DoComplete(token, out, at));
    NoProblemClaimWithoutEvidence(
      cfg, Step(cfg, db, DoComplete(token, out, at)), es, db.claims[token].source, id, noTargets, now);
  }

  /** Admission opens the source's present poll epoch and nothing else. */
  lemma AdmissionOpensTheEpoch(cfg: Config, db: Db, src: nat, id: nat, noTargets: bool, now: int)
    requires src < |db.sources| && id < |db.ops| && db.ops[id].source == src && db.ops[id].kind == Problem
    ensures var db', o, s := Step(cfg, db, Admit(src)), db.ops[id], db.sources[src];
      && db' == db.(sources := db.sources[src := s.(admittedEpoch := Some(s.problemSlot.epoch))])
      && (Step(cfg, db', DoClaim(id, noTargets, now)).claims != db'.claims
          <==> o.state == Pending && o.token == None && o.authority == s.authority && s.evidence == Current)
  {
    ClaimedIff(cfg, Step(cfg, db, Admit(src)), id, noTargets, now);
  }
}
