/**
 The transition log refines the problem projection, over every run of completions.
 */
module ProblemLog {
  import opened Common
  import opened ProblemState

  /** An independent reading of the log: follow one problem's transitions in order.  It
      breaks on a gap, on leaving `resolved`, or on a revision that does not increase. */
  datatype Replayed = Start | At(state: State, severity: Severity, revision: nat) | Broken

  function Follow(prior: Replayed, t: Transition): Replayed {
    match prior
    case Start =>
      if t.fromState == None && t.fromSeverity == None && t.toState == Active
      then At(Active, t.toSeverity, t.revision) else Broken
    case At(s, sev, rev) =>
      if t.fromState == Some(s) && t.fromSeverity == Some(sev) && s == Active && rev < t.revision
      then At(t.toState, t.toSeverity, t.revision) else Broken
    case Broken => Broken
  }

  function Replay(ts: seq<Transition>, problem: nat): Replayed {
    if ts == [] then Start
    else
      var prior := Replay(ts[..|ts| - 1], problem);
      var t := ts[|ts| - 1];
      if t.problem == problem then Follow(prior, t) else prior
  }

  lemma ReplaySnoc(ts: seq<Transition>, t: Transition, problem: nat)
    ensures Replay(ts + [t], problem) ==
              if t.problem == problem then Follow(Replay(ts, problem), t) else Replay(ts, problem)
  {
    assert (ts + [t])[..|ts|] == ts;
  }

  /** The log of a problem is replayed to exactly its row's state and severity. */
  predicate Refines(db: Db, problem: nat) {
    if problem < |db.problems| then
      var r := db.problems[problem];
      var l := Replay(db.transitions, problem);
      l.At? && l.state == r.state && l.severity == r.severity && l.revision <= r.revision
    else
      Replay(db.transitions, problem) == Start
  }

  /** One domain event per transition, carrying the same data. */
  predicate Published(db: Db) {
    && |db.outbox| == |db.transitions|
    && (forall j :: 0 <= j < |db.transitions| ==>
          var t, e := db.transitions[j], db.outbox[j];
          && e.subject == t.problem && e.revision == t.revision && e.reason == t.reason
          && e.fromState == t.fromState && e.toState == t.toState
          && e.fromSeverity == t.fromSeverity && e.toSeverity == t.toSeverity)
  }

  ghost predicate LogInv(db: Db) {
    Bound(db) && Published(db) && forall p: nat :: Refines(db, p)
  }

  /** How a problem row may move: identity fixed, revision never back, same revision same
      state and severity, a resolved row frozen. */
  predicate RowLe(r: Row, s: Row) {
    && s.key == r.key && s.resource == r.resource
    && r.revision <= s.revision
    && (r.revision == s.revision ==> s.state == r.state && s.severity == r.severity)
    && (r.state == Resolved ==> s == r)
  }

  ghost predicate Grows(db: Db, db': Db) {
    && |db.problems| <= |db'.problems|
    && db.transitions <= db'.transitions
    && db.outbox <= db'.outbox
    && (forall k :: k in db.bindings ==> k in db'.bindings && db'.bindings[k] == db.bindings[k])
    && (forall i :: 0 <= i < |db.problems| ==> RowLe(db.problems[i], db'.problems[i]))
    && (forall i :: |db.problems| <= i < |db'.problems| ==> db'.problems[i].revision > 0)
  }

  lemma EmitKeeps(db: Db, t: Transition, db': Db)
    requires Bound(db') && Published(db)
    requires db'.transitions == db.transitions + [t] && db'.outbox == db.outbox + [EventOf(t)]
    requires forall p: nat :: p != t.problem ==> Refines(db, p)
    requires t.problem < |db'.problems| && |db.problems| <= |db'.problems| <= |db.problems| + 1
    requires forall p :: 0 <= p < |db.problems| && p != t.problem ==> db'.problems[p] == db.problems[p]
    requires |db.problems| < |db'.problems| ==> t.problem == |db.problems|
    requires Follow(Replay(db.transitions, t.problem), t)
               == At(db'.problems[t.problem].state, db'.problems[t.problem].severity, t.revision)
    requires t.revision <= db'.problems[t.problem].revision
    ensures LogInv(db')
  {
    forall p: nat ensures Refines(db', p) {
      ReplaySnoc(db.transitions, t, p);
      assert p != t.problem ==> Refines(db, p);
    }
  }

  /** A row rewritten without a transition keeps the log when state and severity stay. */
  lemma SilentKeeps(db: Db, db': Db, id: nat)
    requires LogInv(db) && Bound(db') && id < |db.problems|
    requires db'.transitions == db.transitions && db'.outbox == db.outbox
    requires |db'.problems| == |db.problems| && db'.problems == db.problems[id := db'.problems[id]]
    requires RowLe(db.problems[id], db'.problems[id])
    requires db'.problems[id].state == db.problems[id].state && db'.problems[id].severity == db.problems[id].severity
    ensures LogInv(db')
  {
    forall q: nat ensures Refines(db', q) { assert Refines(db, q); }
  }

  lemma PersistOneGrows(db: Db, x: Completion, p: Observed)
    requires PersistOne(db, x, p).Some?
    ensures Grows(db, PersistOne(db, x, p).value)
  {
  }

  lemma OpenLog(db: Db, x: Completion, p: Observed)
    requires LogInv(db) && PersistOne(db, x, p).Some?
    requires p.event in x.triggers && KeyOf(x.claim, p.event) !in db.bindings
    ensures LogInv(PersistOne(db, x, p).value)
  {
    PersistOneEffect(db, x, p);
    assert Refines(db, |db.problems|);
    var t := Transition(|db.problems|, None, Active, None, p.severity, ProviderPositive, 1);
    EmitKeeps(db, t, PersistOne(db, x, p).value);
  }

  lemma ConfirmLog(db: Db, x: Completion, p: Observed)
    requires LogInv(db) && PersistOne(db, x, p).Some?
    requires p.event in x.triggers && KeyOf(x.claim, p.event) in db.bindings
    ensures LogInv(PersistOne(db, x, p).value)
  {
    var id, db' := db.bindings[KeyOf(x.claim, p.event)].problem, PersistOne(db, x, p).value;
    PersistOneEffect(db, x, p);
    assert Refines(db, id);
    if |db.transitions| < |db'.transitions| {
      EmitKeeps(db, db'.transitions[|db.transitions|], db');
    } else {
      SilentKeeps(db, db', id);
    }
  }

  lemma PersistOneLog(db: Db, x: Completion, p: Observed)
    requires LogInv(db) && PersistOne(db, x, p).Some?
    ensures LogInv(PersistOne(db, x, p).value)
  {
    if p.event in x.triggers {
      if KeyOf(x.claim, p.event) in db.bindings { ConfirmLog(db, x, p); } else { OpenLog(db, x, p); }
    }
  }

  lemma GrowsTrans(a: Db, b: Db, c: Db)
    requires Grows(a, b) && Grows(b, c)
    ensures Grows(a, c)
  {
    forall i | 0 <= i < |a.problems| ensures RowLe(a.problems[i], c.problems[i]) {
      assert RowLe(a.problems[i], b.problems[i]) && RowLe(b.problems[i], c.problems[i]);
    }
  }

  lemma ResolveRowLog(db: Db, c: Claim, id: nat, at: int, reason: Reason)
    requires LogInv(db) && id < |db.problems| && db.problems[id].state == Active
    ensures LogInv(ResolveRow(db, c, id, at, reason))
  {
    var db' := ResolveRow(db, c, id, at, reason);
    RewriteRow(db, id, db'.problems[id], db');
    assert Refines(db, id);
    EmitKeeps(db, db'.transitions[|db.transitions|], db');
  }

  lemma ResolveRowGrows(db: Db, c: Claim, id: nat, at: int, reason: Reason)
    requires id < |db.problems| && db.problems[id].state == Active
    ensures Grows(db, ResolveRow(db, c, id, at, reason))
  {
  }

  lemma {:induction false} PersistAllLog(db: Db, x: Completion, ps: seq<Observed>)
    requires LogInv(db) && PersistAll(db, x, ps).Some?
    ensures LogInv(PersistAll(db, x, ps).value)
    ensures Grows(db, PersistAll(db, x, ps).value)
    decreases |ps|
  {
    if ps != [] {
      var mid := PersistOne(db, x, ps[0]).value;
      PersistOneLog(db, x, ps[0]);
      PersistOneGrows(db, x, ps[0]);
      PersistAllLog(mid, x, ps[1..]);
      GrowsTrans(db, mid, PersistAll(mid, x, ps[1..]).value);
    }
  }

  lemma {:induction false} RecoverAllLog(db: Db, c: Claim, recs: seq<Recovery>)
    requires LogInv(db) && RecoverAll(db, c, recs).Some?
    ensures LogInv(RecoverAll(db, c, recs).value)
    ensures Grows(db, RecoverAll(db, c, recs).value)
    decreases |recs|
  {
    if recs != [] {
      var k, mid := KeyOf(c, recs[0].event), RecoverOne(db, c, recs[0]).value;
      if mid != db {
        ResolveRowLog(db, c, db.bindings[k].problem, recs[0].clock, ProviderRecovery);
        ResolveRowGrows(db, c, db.bindings[k].problem, recs[0].clock, ProviderRecovery);
      }
      RecoverAllLog(mid, c, recs[1..]);
      GrowsTrans(db, mid, RecoverAll(mid, c, recs[1..]).value);
    }
  }

  lemma {:induction false} OmitLog(db: Db, c: Claim, seen: set<nat>, now: int, from: nat)
    requires LogInv(db) && from <= |db.problems|
    ensures LogInv(OmitFrom(db, c, seen, now, from))
    decreases |db.problems| - from
  {
    if from < |db.problems| {
      if Omitted(c, seen, db.problems[from]) {
        ResolveRowLog(db, c, from, now, AuthoritativeNegative);
        OmitLog(ResolveRow(db, c, from, now, AuthoritativeNegative), c, seen, now, from + 1);
      } else {
        OmitLog(db, c, seen, now, from + 1);
      }
    }
  }

  lemma {:induction false} OmitGrows(db: Db, c: Claim, seen: set<nat>, now: int, from: nat)
    requires from <= |db.problems|
    ensures Grows(db, OmitFrom(db, c, seen, now, from))
    decreases |db.problems| - from
  {
    if from < |db.problems| {
      if Omitted(c, seen, db.problems[from]) {
        var mid := ResolveRow(db, c, from, now, AuthoritativeNegative);
        ResolveRowGrows(db, c, from, now, AuthoritativeNegative);
        OmitGrows(mid, c, seen, now, from + 1);
        GrowsTrans(db, mid, OmitFrom(mid, c, seen, now, from + 1));
      } else {
        OmitGrows(db, c, seen, now, from + 1);
      }
    }
  }

  lemma DegradeLog(db: Db, c: Claim, seen: set<nat>)
    requires LogInv(db)
    ensures LogInv(DegradeOmitted(db, c, seen)) && Grows(db, DegradeOmitted(db, c, seen))
  {
    DegradeEffect(db, c, seen);
    forall q: nat ensures Refines(DegradeOmitted(db, c, seen), q) { assert Refines(db, q); }
  }

  lemma StepLog(db: Db, x: Completion)
    requires LogInv(db)
    ensures LogInv(Step(db, x)) && Grows(db, Step(db, x))
  {
    if x.succeeded && Complete(db, x).Some? {
      PersistAllLog(db, x, x.problems);
      var p := PersistAll(db, x, x.problems).value;
      RecoverAllLog(p, x.claim, x.recoveries);
      var r := RecoverAll(p, x.claim, x.recoveries).value;
      if x.complete {
        OmitLog(r, x.claim, Seen(x), x.now, 0);
        OmitGrows(r, x.claim, Seen(x), x.now, 0);
      } else {
        DegradeLog(r, x.claim, Seen(x));
      }
      GrowsTrans(db, p, r);
      GrowsTrans(db, r, Step(db, x));
    }
  }

  lemma {:induction false} RunLog(db: Db, xs: seq<Completion>)
    requires LogInv(db)
    ensures LogInv(Run(db, xs)) && Grows(db, Run(db, xs))
    decreases |xs|
  {
    if xs != [] {
      StepLog(db, xs[0]);
      RunLog(Step(db, xs[0]), xs[1..]);
      GrowsTrans(db, Step(db, xs[0]), Run(db, xs));
    }
  }

  /** Over every run, aborted completions included: each problem's transitions form a
      connected path from nothing through `active`, with strictly increasing revisions, that
      ends in its row's state and severity and never passes `resolved`; and the outbox holds
      exactly one event per transition, in order. */
  lemma LogRefinesProjection(xs: seq<Completion>, problem: nat)
    ensures Refines(Run(Empty, xs), problem)
    ensures Published(Run(Empty, xs))
  {
    RunLog(Empty, xs);
  }

  /** Identities and resolved rows survive any continuation of a run unchanged. */
  lemma ResolvedIsAbsorbing(xs: seq<Completion>, ys: seq<Completion>, problem: nat)
    requires problem < |Run(Empty, xs).problems|
    ensures var db, db' := Run(Empty, xs), Run(Run(Empty, xs), ys);
            && problem < |db'.problems|
            && db'.problems[problem].key == db.problems[problem].key
            && db.problems[problem].revision <= db'.problems[problem].revision
            && (db.problems[problem].state == Resolved ==> db'.problems[problem] == db.problems[problem])
  {
    RunLog(Empty, xs);
    RunLog(Run(Empty, xs), ys);
    assert RowLe(Run(Empty, xs).problems[problem], Run(Run(Empty, xs), ys).problems[problem]);
  }
}
