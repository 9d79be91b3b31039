/**
 When a problem completion aborts: the exact condition on the tables and the inputs, and the
 contradiction between two sources of resolution that blocks an event's evidence for ever.
 */
module ProblemAborts {
  import opened Common
  import opened ProblemState
  import ProblemLog

  /* ---------- the four ways to raise ---------- */

  /** A returned problem whose resource association is not current, whose stable identity
      changed, or whose event was resolved before. */
  predicate Refused(db: Db, x: Completion, p: Observed) {
    var k := KeyOf(x.claim, p.event);
    && p.event in x.triggers
    && (|| p.resource !in x.currentResources
        || (k in db.bindings && db.bindings[k].problem < |db.problems|
            && (|| db.bindings[k].resource != p.resource
                || db.bindings[k].trigger != x.triggers[p.event]
                || db.problems[db.bindings[k].problem].state == Resolved)))
  }

  /** Two returned problems claim one event for two resources. */
  predicate Collide(x: Completion, p: Observed, q: Observed) {
    p.event == q.event && p.event in x.triggers && p.resource != q.resource
  }

  /** Recovery evidence for a problem that was resolved at another time. */
  predicate Contradicts(db: Db, c: Claim, rec: Recovery) {
    var k := KeyOf(c, rec.event);
    && k in db.bindings && db.bindings[k].problem < |db.problems|
    && var r := db.problems[db.bindings[k].problem];
    r.state == Resolved && r.resolvedAt.Some? && r.resolvedAt.value != rec.clock
  }

  /** Two pieces of recovery evidence name one event at two times. */
  predicate Conflict(r: Recovery, s: Recovery) { r.event == s.event && r.clock != s.clock }

  /* ---------- the loop over the returned problems ---------- */

  predicate PersistBlocked(db: Db, x: Completion, ps: seq<Observed>) {
    || (exists i :: 0 <= i < |ps| && Refused(db, x, ps[i]))
    || (exists i, j :: 0 <= i < j < |ps| && Collide(x, ps[i], ps[j]))
  }

  lemma RefusedAfterOne(db: Db, x: Completion, p: Observed, q: Observed)
    requires Bound(db) && PersistOne(db, x, p).Some?
    ensures Refused(PersistOne(db, x, p).value, x, q) <==> Refused(db, x, q) || Collide(x, p, q)
  {
  }

  lemma BlockedStep(db: Db, mid: Db, x: Completion, ps: seq<Observed>)
    requires ps != [] && !Refused(db, x, ps[0])
    requires forall q :: Refused(mid, x, q) <==> Refused(db, x, q) || Collide(x, ps[0], q)
    ensures PersistBlocked(mid, x, ps[1..]) <==> PersistBlocked(db, x, ps)
  {
    var tail := ps[1..];
    if PersistBlocked(mid, x, tail) {
      if i :| 0 <= i < |tail| && Refused(mid, x, tail[i]) {
        assert ps[i + 1] == tail[i];
      } else {
        var i, j :| 0 <= i < j < |tail| && Collide(x, tail[i], tail[j]);
        assert Collide(x, ps[i + 1], ps[j + 1]);
      }
    }
    if PersistBlocked(db, x, ps) {
      if i :| 0 <= i < |ps| && Refused(db, x, ps[i]) {
        assert tail[i - 1] == ps[i];
      } else {
        var i, j :| 0 <= i < j < |ps| && Collide(x, ps[i], ps[j]);
        assert tail[j - 1] == ps[j];
        if i > 0 { assert Collide(x, tail[i - 1], tail[j - 1]); }
      }
    }
  }

  lemma {:induction false} PersistRaisesIff(db: Db, x: Completion, ps: seq<Observed>)
    requires Bound(db)
    ensures PersistAll(db, x, ps) == None <==> PersistBlocked(db, x, ps)
    decreases |ps|
  {
    if ps != [] {
      assert PersistOne(db, x, ps[0]) == None <==> Refused(db, x, ps[0]);
      if !Refused(db, x, ps[0]) {
        var mid := PersistOne(db, x, ps[0]).value;
        PersistOneEffect(db, x, ps[0]);
        forall q ensures Refused(mid, x, q) <==> Refused(db, x, q) || Collide(x, ps[0], q) {
          RefusedAfterOne(db, x, ps[0], q);
        }
        PersistRaisesIff(mid, x, ps[1..]);
        BlockedStep(db, mid, x, ps);
      }
    }
  }

  lemma PersistOneKeepsContradictions(db: Db, x: Completion, p: Observed, rec: Recovery)
    requires Bound(db) && PersistOne(db, x, p).Some?
    ensures Contradicts(PersistOne(db, x, p).value, x.claim, rec) <==> Contradicts(db, x.claim, rec)
  {
  }

  /** Persisting neither makes nor removes a contradiction: resolved rows are frozen. */
  lemma {:induction false} PersistKeepsContradictions(db: Db, x: Completion, ps: seq<Observed>, rec: Recovery)
    requires Bound(db) && PersistAll(db, x, ps).Some?
    ensures Contradicts(PersistAll(db, x, ps).value, x.claim, rec) <==> Contradicts(db, x.claim, rec)
    decreases |ps|
  {
    if ps != [] {
      PersistOneEffect(db, x, ps[0]);
      PersistOneKeepsContradictions(db, x, ps[0], rec);
      PersistKeepsContradictions(PersistOne(db, x, ps[0]).value, x, ps[1..], rec);
    }
  }

  /* ---------- the loop over the recovery evidence ---------- */

  predicate IsActive(db: Db, c: Claim, event: nat) { StateAt(db, KeyOf(c, event)) == Some(Active) }

  predicate RecoverBlocked(db: Db, c: Claim, recs: seq<Recovery>) {
    || (exists j :: 0 <= j < |recs| && Contradicts(db, c, recs[j]))
    || (exists i, j :: 0 <= i < j < |recs| && Conflict(recs[i], recs[j]) && IsActive(db, c, recs[i].event))
  }

  lemma ContradictsAfterOne(db: Db, c: Claim, r: Recovery, s: Recovery)
    requires Bound(db) && RecoverOne(db, c, r).Some?
    ensures var mid := RecoverOne(db, c, r).value;
      && (Contradicts(mid, c, s) <==> Contradicts(db, c, s) || (Conflict(r, s) && IsActive(db, c, r.event)))
      && (IsActive(mid, c, s.event) <==> IsActive(db, c, s.event) && s.event != r.event)
  {
  }

  lemma RecoverBlockedStep(db: Db, mid: Db, c: Claim, recs: seq<Recovery>)
    requires recs != [] && !Contradicts(db, c, recs[0])
    requires forall s ::
      && (Contradicts(mid, c, s) <==> Contradicts(db, c, s) || (Conflict(recs[0], s) && IsActive(db, c, recs[0].event)))
      && (IsActive(mid, c, s.event) <==> IsActive(db, c, s.event) && s.event != recs[0].event)
    ensures RecoverBlocked(mid, c, recs[1..]) <==> RecoverBlocked(db, c, recs)
  {
    var r, tail := recs[0], recs[1..];
    if RecoverBlocked(mid, c, tail) {
      if j :| 0 <= j < |tail| && Contradicts(mid, c, tail[j]) {
        assert recs[j + 1] == tail[j];
        if !Contradicts(db, c, tail[j]) { assert Conflict(recs[0], recs[j + 1]); }
      } else {
        var i, j :| 0 <= i < j < |tail| && Conflict(tail[i], tail[j]) && IsActive(mid, c, tail[i].event);
        assert Conflict(recs[i + 1], recs[j + 1]);
      }
    }
    if RecoverBlocked(db, c, recs) {
      if j :| 0 <= j < |recs| && Contradicts(db, c, recs[j]) {
        assert tail[j - 1] == recs[j];
      } else {
        var i, j :| 0 <= i < j < |recs| && Conflict(recs[i], recs[j]) && IsActive(db, c, recs[i].event);
        assert tail[j - 1] == recs[j];
        if i > 0 {
          assert tail[i - 1] == recs[i];
          if recs[i].event == r.event {
            assert Conflict(r, tail[i - 1]) || Conflict(r, tail[j - 1]);
          } else {
            assert Conflict(tail[i - 1], tail[j - 1]) && IsActive(mid, c, tail[i - 1].event);
          }
        }
      }
    }
  }

  lemma {:induction false} RecoverRaisesIff(db: Db, c: Claim, recs: seq<Recovery>)
    requires Bound(db)
    ensures RecoverAll(db, c, recs) == None <==> RecoverBlocked(db, c, recs)
    decreases |recs|
  {
    if recs != [] {
      assert RecoverOne(db, c, recs[0]) == None <==> Contradicts(db, c, recs[0]);
      if !Contradicts(db, c, recs[0]) {
        var mid := RecoverOne(db, c, recs[0]).value;
        RecoverOneEffect(db, c, recs[0]);
        forall s: Recovery ensures
          && (Contradicts(mid, c, s)
              <==> Contradicts(db, c, s) || (Conflict(recs[0], s) && IsActive(db, c, recs[0].event)))
          && (IsActive(mid, c, s.event) <==> IsActive(db, c, s.event) && s.event != recs[0].event)
        {
          ContradictsAfterOne(db, c, recs[0], s);
        }
        RecoverRaisesIff(mid, c, recs[1..]);
        RecoverBlockedStep(db, mid, c, recs);
      }
    }
  }

  /* ---------- the whole completion ---------- */

  /** The exact reason to abort, read off the tables before and the inputs. */
  predicate Blocked(db: Db, x: Completion) {
    || PersistBlocked(db, x, x.problems)
    || (exists j :: 0 <= j < |x.recoveries| && Contradicts(db, x.claim, x.recoveries[j]))
    || (exists i, j :: 0 <= i < j < |x.recoveries| && Conflict(x.recoveries[i], x.recoveries[j])
          && (IsActive(db, x.claim, x.recoveries[i].event) || x.recoveries[i].event in Seen(x)))
  }

  /** A successful result commits if and only if no returned problem is refused or collides
      with another, no recovery contradicts a resolved row, and no two recoveries of one active
      or returned event disagree. */
  lemma CommitsIff(db: Db, x: Completion)
    requires Bound(db)
    ensures Complete(db, x).Some? <==> !x.succeeded || !Blocked(db, x)
  {
    PersistRaisesIff(db, x, x.problems);
    if PersistAll(db, x, x.problems).Some? {
      var p := PersistAll(db, x, x.problems).value;
      PersistAllEffect(db, x, x.problems);
      RecoverRaisesIff(p, x.claim, x.recoveries);
      forall rec ensures
        && (Contradicts(p, x.claim, rec) <==> Contradicts(db, x.claim, rec))
        && (IsActive(p, x.claim, rec.event) <==> IsActive(db, x.claim, rec.event) || rec.event in Seen(x))
      {
        PersistKeepsContradictions(db, x, x.problems, rec);
      }
      SameBlocks(p, db, x);
    }
  }

  lemma SameBlocks(p: Db, db: Db, x: Completion)
    requires !PersistBlocked(db, x, x.problems)
    requires forall rec ::
      && (Contradicts(p, x.claim, rec) <==> Contradicts(db, x.claim, rec))
      && (IsActive(p, x.claim, rec.event) <==> IsActive(db, x.claim, rec.event) || rec.event in Seen(x))
    ensures RecoverBlocked(p, x.claim, x.recoveries) <==> Blocked(db, x)
  {
  }

  /* ---------- a contradiction is for ever ---------- */

  /** Once a resolution contradicts a piece of recovery evidence it does so in every
      continuation, and whatever completion of that source and generation carries the evidence
      changes nothing. */
  lemma ContradictionIsPermanent(xs: seq<Completion>, ys: seq<Completion>, c: Claim, rec: Recovery, x: Completion)
    requires Contradicts(Run(Empty, xs), c, rec)
    requires x.claim.source == c.source && x.claim.generation == c.generation && rec in x.recoveries
    ensures var later := Run(Run(Empty, xs), ys);
      Contradicts(later, c, rec) && Step(later, x) == later
  {
    var db := Run(Empty, xs);
    ProblemLog.RunLog(Empty, xs);
    ProblemLog.RunLog(db, ys);
    var later := Run(db, ys);
    var id := db.bindings[KeyOf(c, rec.event)].problem;
    assert ProblemLog.RowLe(db.problems[id], later.problems[id]);
    var j :| 0 <= j < |x.recoveries| && x.recoveries[j] == rec;
    assert KeyOf(x.claim, rec.event) == KeyOf(c, rec.event);
    assert Contradicts(later, x.claim, x.recoveries[j]);
    CommitsIff(later, x);
  }

  const FirstClaim := Claim(1, 1, 0, 1)

  const Disk := Observed(7, 1, Critical, "disk", false, map[], 90)

  /** Event 7 opens, */
  const Opens := Completion(FirstClaim, true, true, [Disk], map[7 := 70], [], {1}, 100)

  /** is omitted from the complete snapshot taken at 200, */
  const Omits := Completion(FirstClaim.(pollGeneration := 2), true, true, [], map[], [], {1}, 200)

  /** and is then reported as recovered at 150. */
  const Recovers := Completion(FirstClaim.(pollGeneration := 3), true, true, [], map[], [Recovery(7, 8, 150)], {1}, 300)

  lemma OneProblem(db: Db, x: Completion)
    requires x.problems == [Disk] && x.recoveries == [] && x.succeeded && x.triggers == map[7 := 70]
    ensures Seen(x) == {7}
    ensures PersistAll(db, x, x.problems) == PersistOne(db, x, Disk)
  {
    assert x.problems[1..] == [];
    assert Bindable([], x.triggers) == {};
    assert Bindable(x.problems, x.triggers) == {7} + Bindable(x.problems[1..], x.triggers);
    var r := PersistOne(db, x, Disk);
    if r.Some? { assert PersistAll(r.value, x, []) == r; }
  }

  /** The tables after the first two of them. */
  lemma OpenThenOmitted()
    ensures var k := KeyOf(FirstClaim, 7);
      var a, b := Step(Empty, Opens), Step(Step(Empty, Opens), Omits);
      && StateAt(a, k) == Some(Active)
      && StateAt(b, k) == Some(Resolved) && b.problems[b.bindings[k].problem].resolvedAt == Some(200)
  {
    OneProblem(Empty, Opens);
    var p := PersistOne(Empty, Opens, Disk).value;
    assert RecoverAll(p, FirstClaim, []) == Some(p);
    assert OmitFrom(p, FirstClaim, {7}, 100, 0) == p;
    assert Step(Empty, Opens) == p;
    var b := Step(p, Omits);
    assert b == OmitFrom(p, Omits.claim, {}, 200, 0);
    assert b == OmitFrom(ResolveRow(p, Omits.claim, 0, 200, AuthoritativeNegative), Omits.claim, {}, 200, 1);
  }

  /** A concrete run into the contradiction. */
  lemma OmissionThenRecoveryContradicts()
    ensures var db := Run(Empty, [Opens, Omits]);
      && Contradicts(db, FirstClaim, Recovery(7, 8, 150))
      && Run(db, [Recovers]) == db
  {
    OpenThenOmitted();
    var a, b := Step(Empty, Opens), Step(Step(Empty, Opens), Omits);
    assert Run(Empty, [Opens, Omits]) == Run(a, [Omits]) by { assert [Opens, Omits][1..] == [Omits]; }
    assert Run(a, [Omits]) == Run(b, []) by { assert [Omits][1..] == []; }
    ContradictionIsPermanent([Opens, Omits], [], FirstClaim, Recovery(7, 8, 150), Recovers);
    assert Run(b, [Recovers]) == Run(Step(b, Recovers), []) by { assert [Recovers][1..] == []; }
  }
}
