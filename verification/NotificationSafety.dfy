/**
 What every run of the notification tables keeps: numbered attempts with a bounded retry
 chain, and a projection that is the join of the recorded facts.
 */
module NotificationSafety {
  import opened Common
  import opened Notification

  /* ---------- the invariant ---------- */

  /** Attempts are numbered from 1 and all but the last may be retried. */
  predicate Chain(attempts: seq<Attempt>) {
    && |attempts| <= MAX_ATTEMPTS
    && (forall k :: 0 <= k < |attempts| ==> attempts[k].number == k + 1)
    && (forall k :: 0 <= k < |attempts| - 1 ==> Retryable(attempts[k].outcome))
  }

  /** Another attempt is due. */
  predicate Open(attempts: seq<Attempt>) {
    |attempts| == 0 || (|attempts| < MAX_ATTEMPTS && Retryable(attempts[|attempts| - 1].outcome))
  }

  predicate Entries(i: Intent) {
    && |i.entries| == |i.attempts| + (if Open(i.attempts) then 1 else 0)
    && (forall k :: 0 <= k < |i.entries| ==>
          i.entries[k] == Entry(k + 1, if k < |i.attempts| then Done else Pending))
  }

  /** The projection is up to date and counts the recorded facts. */
  predicate Fresh(i: Intent) {
    && (i.projection == None <==> i.attempts == [] && i.evidence == [])
    && (i.projection.Some? ==>
          && i.projection.value.revision == |i.attempts| + |i.evidence|
          && Recompute(i).projection.value.(revision := i.projection.value.revision) == i.projection.value)
  }

  predicate IntentOk(i: Intent) { Chain(i.attempts) && Entries(i) && Fresh(i) }

  predicate Inv(db: Db) { forall i :: 0 <= i < |db.intents| ==> IntentOk(db.intents[i]) }

  lemma {:induction false} LastIsLast(attempts: seq<Attempt>)
    requires attempts != [] && forall k :: 0 < k < |attempts| ==> attempts[k - 1].number < attempts[k].number
    ensures LastAttempt(attempts) == Some(attempts[|attempts| - 1])
    ensures forall k :: 0 <= k < |attempts| ==> attempts[k].number <= attempts[|attempts| - 1].number
  {
    if |attempts| > 1 {
      assert forall k :: 0 < k < |attempts| - 1 ==> attempts[1..][k - 1].number < attempts[1..][k].number;
      LastIsLast(attempts[1..]);
      assert forall k :: 0 < k < |attempts| ==> attempts[k] == attempts[1..][k - 1];
    }
  }

  lemma ChainState(attempts: seq<Attempt>)
    requires Chain(attempts)
    ensures AttemptState(attempts) == if attempts == [] then Dispatching else attempts[|attempts| - 1].outcome
  {
    if attempts != [] { LastIsLast(attempts); }
  }

  lemma DispatchKeeps(i: Intent, e: nat, outcome: State)
    requires IntentOk(i) && CanClaim(i, e) && CanComplete(ClaimDispatch(i, e), e, outcome)
    ensures IntentOk(CompleteDispatch(ClaimDispatch(i, e), e, outcome))
  {
    var j := CompleteDispatch(ClaimDispatch(i, e), e, outcome);
    assert e == |i.attempts|;
    assert Chain(j.attempts);
    assert Entries(j);
  }

  lemma EvidenceKeeps(db: Db, i: nat, s: State, callback: Option<nat>)
    requires Inv(db) && i < |db.intents|
    ensures Inv(RecordEvidence(db, i, s, callback))
  {
  }

  lemma StepInv(db: Db, e: Event)
    requires Inv(db)
    ensures Inv(Step(db, e))
  {
    match e
    case Created =>
    case Dispatched(i, k, outcome, accepted) =>
      if i < |db.intents| && CanClaim(db.intents[i], k) && CanComplete(ClaimDispatch(db.intents[i], k), k, outcome) {
        var done := CompleteDispatch(ClaimDispatch(db.intents[i], k), k, outcome);
        DispatchKeeps(db.intents[i], k, outcome);
        var mid := db.(intents := db.intents[i := done]);
        assert Inv(mid);
        EvidenceKeeps(mid, i, ProviderAccepted, None);
      }
    case CalledBack(i, s, callback) => if i < |db.intents| { EvidenceKeeps(db, i, s, callback); }
  }

  lemma {:induction false} RunInv(db: Db, es: seq<Event>)
    requires Inv(db)
    ensures Inv(Run(db, es))
    decreases |es|
  {
    if es != [] {
      StepInv(db, es[0]);
      RunInv(Step(db, es[0]), es[1..]);
    }
  }

  /* ---------- bounded retry ---------- */

  function PendingEntries(i: Intent): set<nat> { set k | 0 <= k < |i.entries| && i.entries[k].state == Pending }

  /** Over every run: the attempts of an intent are numbered exactly 1..n with n at most three;
      an asked-for retry means exactly one pending entry, numbered n + 1; a fallback means none;
      and the two are never asked for together. */
  lemma RetriesAreBounded(es: seq<Event>, i: nat)
    requires i < |Run(Empty, es).intents|
    ensures var x := Run(Empty, es).intents[i];
      var n := |x.attempts|;
      && n <= MAX_ATTEMPTS
      && (forall k :: 0 <= k < n ==> x.attempts[k].number == k + 1)
      && (x.projection.Some? ==>
            && (x.projection.value.retryRequired ==> PendingEntries(x) == {n} && x.entries[n].number == n + 1)
            && (x.projection.value.fallback ==> n == MAX_ATTEMPTS && PendingEntries(x) == {})
            && !(x.projection.value.retryRequired && x.projection.value.fallback))
  {
    RunInv(Empty, es);
    var x := Run(Empty, es).intents[i];
    assert IntentOk(x);
    ChainState(x.attempts);
    if x.projection.Some? && x.projection.value.retryRequired {
      assert |x.attempts| in PendingEntries(x);
    }
  }

  /** The last attempt failed, or nobody knows, and no delivery has been seen. */
  predicate Stuck(x: Intent) {
    && x.attempts != [] && x.attempts[|x.attempts| - 1].outcome in {Failed, Unknown}
    && Delivered !in x.evidence && ExternalRead !in x.evidence
  }

  lemma FlagsOf(x: Intent)
    requires IntentOk(x) && x.projection.Some?
    ensures x.projection.value.attemptCount == |x.attempts|
    ensures x.projection.value.retryRequired <==> Stuck(x) && |x.attempts| < 3
    ensures x.projection.value.fallback <==> Stuck(x) && |x.attempts| == 3
  {
    ChainState(x.attempts);
    BestIsGreatest(x.evidence);
  }

  /** A retry or a fallback is asked for exactly when the last attempt failed and no delivery
      has been seen; which of the two depends on the attempts used up. */
  lemma FlagsAreExact(es: seq<Event>, i: nat)
    requires i < |Run(Empty, es).intents| && Run(Empty, es).intents[i].projection.Some?
    ensures var x := Run(Empty, es).intents[i];
      var p := x.projection.value;
      && (p.retryRequired <==> Stuck(x) && |x.attempts| < MAX_ATTEMPTS)
      && (p.fallback <==> Stuck(x) && |x.attempts| == MAX_ATTEMPTS)
  {
    RunInv(Empty, es);
    FlagsOf(Run(Empty, es).intents[i]);
  }

  /** Every attempt that may be retried and is not the third has its next entry; so an intent
      runs out of entries only when an attempt went through or three were used. */
  lemma EntryPendingIffOpen(es: seq<Event>, i: nat)
    requires i < |Run(Empty, es).intents|
    ensures var x := Run(Empty, es).intents[i];
      PendingEntries(x) ==
        if x.attempts == [] || (|x.attempts| < 3 && x.attempts[|x.attempts| - 1].outcome in {Failed, Unknown})
        then {|x.attempts|} else {}
  {
    RunInv(Empty, es);
    assert IntentOk(Run(Empty, es).intents[i]);
  }

  /* ---------- the projection is a join of facts ---------- */

  /** The greatest rank among all attempts and all evidence; 0 when there are none. */
  function StrongestFact(attempts: seq<Attempt>, evidence: seq<State>): nat {
    if attempts != [] then
      var rest := StrongestFact(attempts[1..], evidence);
      if Rank(attempts[0].outcome) > rest then Rank(attempts[0].outcome) else rest
    else if evidence != [] then
      var rest := StrongestFact([], evidence[1..]);
      if Rank(evidence[0]) > rest then Rank(evidence[0]) else rest
    else 0
  }

  lemma {:induction false} StrongestBounds(attempts: seq<Attempt>, evidence: seq<State>)
    ensures forall k :: 0 <= k < |attempts| ==> Rank(attempts[k].outcome) <= StrongestFact(attempts, evidence)
    ensures forall k :: 0 <= k < |evidence| ==> Rank(evidence[k]) <= StrongestFact(attempts, evidence)
    ensures StrongestFact(attempts, evidence) > 0 ==>
              (exists k :: 0 <= k < |attempts| && Rank(attempts[k].outcome) == StrongestFact(attempts, evidence))
              || (exists k :: 0 <= k < |evidence| && Rank(evidence[k]) == StrongestFact(attempts, evidence))
    decreases |attempts| + |evidence|
  {
    if attempts != [] {
      StrongestBounds(attempts[1..], evidence);
      assert forall k :: 0 < k < |attempts| ==> attempts[k] == attempts[1..][k - 1];
    } else if evidence != [] {
      StrongestBounds([], evidence[1..]);
      assert forall k :: 0 < k < |evidence| ==> evidence[k] == evidence[1..][k - 1];
    }
  }

  lemma {:induction false} BestIsGreatest(evidence: seq<State>)
    ensures Best(evidence) == None <==> evidence == []
    ensures Best(evidence).Some? ==> Best(evidence).value in evidence
    ensures forall s :: s in evidence ==> Best(evidence).Some? && Rank(s) <= Rank(Best(evidence).value)
  {
    if evidence != [] { BestIsGreatest(evidence[1..]); }
  }

  /** The shown state has the greatest rank over all attempts and all evidence, although it is
      computed from the last attempt alone: an earlier attempt is only followed by another when
      it failed or is unknown. */
  lemma ProjectionIsStrongestFact(es: seq<Event>, i: nat)
    requires i < |Run(Empty, es).intents| && Run(Empty, es).intents[i].projection.Some?
    ensures var x := Run(Empty, es).intents[i];
      Rank(x.projection.value.current) == StrongestFact(x.attempts, x.evidence)
  {
    RunInv(Empty, es);
    var x := Run(Empty, es).intents[i];
    assert IntentOk(x);
    CurrentIsStrongest(x);
  }

  lemma CurrentIsStrongest(x: Intent)
    requires Chain(x.attempts)
    ensures Rank(ShownState(x.attempts, x.evidence)) == StrongestFact(x.attempts, x.evidence)
  {
    ChainState(x.attempts);
    BestIsGreatest(x.evidence);
    StrongestBounds(x.attempts, x.evidence);
    var top := StrongestFact(x.attempts, x.evidence);
    if Best(x.evidence).Some? {
      var k :| 0 <= k < |x.evidence| && x.evidence[k] == Best(x.evidence).value;
      assert Rank(x.evidence[k]) <= top;
    }
    if x.attempts != [] { assert Rank(x.attempts[|x.attempts| - 1].outcome) <= top; }
  }

  /** Facts are only added. */
  predicate Extends(a: Intent, b: Intent) { a.attempts <= b.attempts && a.evidence <= b.evidence }

  lemma {:induction false} FactsOnlyGrow(db: Db, es: seq<Event>, i: nat)
    requires i < |db.intents|
    ensures i < |Run(db, es).intents| && Extends(db.intents[i], Run(db, es).intents[i])
    decreases |es|
  {
    if es != [] {
      var mid := Step(db, es[0]);
      assert i < |mid.intents| && Extends(db.intents[i], mid.intents[i]);
      FactsOnlyGrow(mid, es[1..], i);
    }
  }

  lemma {:induction false} RunTwice(db: Db, es: seq<Event>, more: seq<Event>)
    ensures Run(Run(db, es), more) == Run(db, es + more)
    decreases |es|
  {
    if es == [] {
      assert es + more == more;
    } else {
      RunTwice(Step(db, es[0]), es[1..], more);
      assert (es + more)[1..] == es[1..] + more;
    }
  }

  /** The rank of the shown state never decreases, whatever happens next. */
  lemma ShownRankNeverDecreases(es: seq<Event>, more: seq<Event>, i: nat)
    requires i < |Run(Empty, es).intents| && Run(Empty, es).intents[i].projection.Some?
    ensures i < |Run(Empty, es + more).intents|
    ensures var a, b := Run(Empty, es).intents[i], Run(Empty, es + more).intents[i];
      && b.projection.Some?
      && Rank(a.projection.value.current) <= Rank(b.projection.value.current)
      && a.projection.value.revision <= b.projection.value.revision
  {
    RunTwice(Empty, es, more);
    RunInv(Empty, es);
    RunInv(Empty, es + more);
    FactsOnlyGrow(Run(Empty, es), more, i);
    var a, b := Run(Empty, es).intents[i], Run(Empty, es + more).intents[i];
    assert IntentOk(a) && IntentOk(b);
    CurrentIsStrongest(a);
    CurrentIsStrongest(b);
    StrongestBounds(a.attempts, a.evidence);
    StrongestBounds(b.attempts, b.evidence);
    if StrongestFact(a.attempts, a.evidence) > 0 {
      if k :| 0 <= k < |a.attempts| && Rank(a.attempts[k].outcome) == StrongestFact(a.attempts, a.evidence) {
        assert b.attempts[k] == a.attempts[k];
      } else {
        var k :| 0 <= k < |a.evidence| && Rank(a.evidence[k]) == StrongestFact(a.attempts, a.evidence);
        assert b.evidence[k] == a.evidence[k];
      }
    }
  }

  /* ---------- callbacks in any order, any number of times ---------- */

  datatype Callback = Callback(state: State, id: nat)

  function Deliver(db: Db, i: nat, cs: seq<Callback>): Db
    requires i < |db.intents|
    decreases |cs|
  {
    if cs == [] then db else Deliver(RecordEvidence(db, i, cs[0].state, Some(cs[0].id)), i, cs[1..])
  }

  /** One id names one callback. */
  predicate ConsistentCallbacks(cs: seq<Callback>) {
    forall a, b :: a in cs && b in cs && a.id == b.id ==> a == b
  }

  ghost predicate HasEvidence(s: State, cs: seq<Callback>, seen: set<nat>) {
    exists c :: c in cs && c.id !in seen && c.state == s && EvidenceState(s)
  }

  /** Delivering callbacks adds exactly their new evidence. */
  lemma {:induction false} DeliveredEvidence(db: Db, i: nat, cs: seq<Callback>)
    requires i < |db.intents| && ConsistentCallbacks(cs)
    ensures |Deliver(db, i, cs).intents| == |db.intents|
    ensures Deliver(db, i, cs).intents[i].attempts == db.intents[i].attempts
    ensures forall s :: s in Deliver(db, i, cs).intents[i].evidence <==>
              s in db.intents[i].evidence || HasEvidence(s, cs, db.callbacks)
    decreases |cs|
  {
    if cs != [] {
      var c := cs[0];
      var db1 := RecordEvidence(db, i, c.state, Some(c.id));
      assert forall x :: x in cs <==> x == c || x in cs[1..];
      DeliveredEvidence(db1, i, cs[1..]);
      forall s ensures s in Deliver(db, i, cs).intents[i].evidence <==>
                         s in db.intents[i].evidence || HasEvidence(s, cs, db.callbacks) {
        if HasEvidence(s, cs[1..], db1.callbacks) {
          var x :| x in cs[1..] && x.id !in db1.callbacks && x.state == s && EvidenceState(s);
          assert x in cs && x.id !in db.callbacks;
        }
        if HasEvidence(s, cs, db.callbacks) {
          var x :| x in cs && x.id !in db.callbacks && x.state == s && EvidenceState(s);
          if x.id in db1.callbacks {
            assert x == c;
          } else {
            assert x in cs[1..] || x == c;
          }
        }
      }
    }
  }

  lemma CurrentDependsOnTheSet(attempts: seq<Attempt>, e: seq<State>, f: seq<State>)
    requires forall s :: s in e <==> s in f
    ensures ShownState(attempts, e) == ShownState(attempts, f)
  {
    BestIsGreatest(e);
    BestIsGreatest(f);
  }

  /** Two deliveries of the same callbacks, in any order and with any repetition, show the same
      state and ask for the same action. */
  lemma CallbackOrderDoesNotMatter(db: Db, i: nat, cs: seq<Callback>, ds: seq<Callback>)
    requires Inv(db) && i < |db.intents|
    requires ConsistentCallbacks(cs) && forall c :: c in cs <==> c in ds
    ensures |Deliver(db, i, cs).intents| == |Deliver(db, i, ds).intents| == |db.intents|
    ensures var a, b := Deliver(db, i, cs).intents[i], Deliver(db, i, ds).intents[i];
      && (a.projection == None <==> b.projection == None)
      && (a.projection.Some? ==> a.projection.value.(revision := 0) == b.projection.value.(revision := 0))
  {
    DeliveredEvidence(db, i, cs);
    DeliveredEvidence(db, i, ds);
    DeliverInv(db, i, cs);
    DeliverInv(db, i, ds);
    var a, b := Deliver(db, i, cs).intents[i], Deliver(db, i, ds).intents[i];
    assert IntentOk(a) && IntentOk(b);
    forall s ensures s in a.evidence <==> s in b.evidence {
      if HasEvidence(s, cs, db.callbacks) {
        var c :| c in cs && c.id !in db.callbacks && c.state == s && EvidenceState(s);
        assert c in ds;
      }
      if HasEvidence(s, ds, db.callbacks) {
        var c :| c in ds && c.id !in db.callbacks && c.state == s && EvidenceState(s);
        assert c in cs;
      }
    }
    CurrentDependsOnTheSet(a.attempts, a.evidence, b.evidence);
    if a.evidence == [] && b.evidence != [] { assert b.evidence[0] in b.evidence; }
    if b.evidence == [] && a.evidence != [] { assert a.evidence[0] in a.evidence; }
  }

  lemma {:induction false} DeliverInv(db: Db, i: nat, cs: seq<Callback>)
    requires Inv(db) && i < |db.intents|
    ensures Inv(Deliver(db, i, cs))
    decreases |cs|
  {
    if cs != [] {
      EvidenceKeeps(db, i, cs[0].state, Some(cs[0].id));
      DeliverInv(RecordEvidence(db, i, cs[0].state, Some(cs[0].id)), i, cs[1..]);
    }
  }
}
