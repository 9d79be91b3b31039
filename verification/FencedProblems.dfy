/**
 The operation protocol and the problem projection together: a problem completion writes the
 projection in the same transaction that its fence accepts.  A late worker therefore never
 overwrites what a newer poll has written.
 */
module FencedProblems {
  import opened Common
  import P = ProblemState
  import S = SyncOperations
  import Safety = SyncSafety

  datatype World = World(sync: S.Db, monitoring: P.Db)

  datatype Event =
    | Sync(e: S.Event)
    | CompleteProblems(token: nat, out: S.Outcome, now: int, x: P.Completion)

  /** The projection is written under the slot and for the source of the claim. */
  predicate UnderClaim(c: S.Claim, x: P.Completion) {
    && c.kind == S.Problem && c.slot.Some? && c.source == x.claim.source
    && c.slot.value == S.Slot(x.claim.pollEpoch, x.claim.pollGeneration)
  }

  predicate CompletesProblem(sync: S.Db, e: S.Event) {
    e.DoComplete? && e.token < |sync.claims| && sync.claims[e.token].kind == S.Problem
  }

  /** Both parts commit or neither does. */
  function Step(cfg: S.Config, w: World, e: Event): World {
    match e
    case Sync(e) => if CompletesProblem(w.sync, e) then w else w.(sync := S.Step(cfg, w.sync, e))
    case CompleteProblems(token, out, now, x) =>
      if S.Terminal(out.state) && token < |w.sync.claims| && UnderClaim(w.sync.claims[token], x) then
        var s, m := S.CompleteOp(w.sync, token, out, now), P.Complete(w.monitoring, x);
        if s.Some? && m.Some? then World(s.value, m.value) else w
      else w
  }

  function Run(cfg: S.Config, w: World, es: seq<Event>): World
    decreases |es|
  {
    if es == [] then w else Run(cfg, Step(cfg, w, es[0]), es[1..])
  }

  /* ---------- which rows a completion writes ---------- */

  function RowSlot(r: P.Row): S.Slot { S.Slot(r.pollEpoch, r.pollGeneration) }

  predicate WrittenBy(r: P.Row, c: P.Claim) {
    r.key.source == c.source && RowSlot(r) == S.Slot(c.pollEpoch, c.pollGeneration)
  }

  /** Rows of `b` are those of `a`, or written by the claim. */
  predicate Writes(a: P.Db, b: P.Db, c: P.Claim) {
    && |a.problems| <= |b.problems|
    && (forall i :: 0 <= i < |a.problems| ==>
          b.problems[i].key == a.problems[i].key
          && (RowSlot(b.problems[i]) == RowSlot(a.problems[i]) || WrittenBy(b.problems[i], c)))
    && (forall i :: |a.problems| <= i < |b.problems| ==> WrittenBy(b.problems[i], c))
  }

  lemma WritesTrans(a: P.Db, b: P.Db, d: P.Db, c: P.Claim)
    requires Writes(a, b, c) && Writes(b, d, c)
    ensures Writes(a, d, c)
  {
  }

  lemma PersistOneWrites(db: P.Db, x: P.Completion, p: P.Observed)
    requires P.Bound(db) && P.PersistOne(db, x, p).Some?
    ensures Writes(db, P.PersistOne(db, x, p).value, x.claim)
  {
  }

  lemma {:induction false} PersistWrites(db: P.Db, x: P.Completion, ps: seq<P.Observed>)
    requires P.Bound(db) && P.PersistAll(db, x, ps).Some?
    ensures Writes(db, P.PersistAll(db, x, ps).value, x.claim)
    decreases |ps|
  {
    if ps != [] {
      var mid := P.PersistOne(db, x, ps[0]).value;
      P.PersistOneEffect(db, x, ps[0]);
      PersistOneWrites(db, x, ps[0]);
      PersistWrites(mid, x, ps[1..]);
      WritesTrans(db, mid, P.PersistAll(mid, x, ps[1..]).value, x.claim);
    }
  }

  lemma {:induction false} RecoverWrites(db: P.Db, c: P.Claim, recs: seq<P.Recovery>)
    requires P.Bound(db) && P.RecoverAll(db, c, recs).Some?
    ensures Writes(db, P.RecoverAll(db, c, recs).value, c)
    decreases |recs|
  {
    if recs != [] {
      var mid := P.RecoverOne(db, c, recs[0]).value;
      P.RecoverOneEffect(db, c, recs[0]);
      RecoverWrites(mid, c, recs[1..]);
      WritesTrans(db, mid, P.RecoverAll(mid, c, recs[1..]).value, c);
    }
  }

  lemma {:induction false} OmitWrites(db: P.Db, c: P.Claim, seen: set<nat>, now: int, from: nat)
    requires from <= |db.problems|
    ensures Writes(db, P.OmitFrom(db, c, seen, now, from), c)
    decreases |db.problems| - from
  {
    if from < |db.problems| {
      if P.Omitted(c, seen, db.problems[from]) {
        var mid := P.ResolveRow(db, c, from, now, P.AuthoritativeNegative);
        OmitWrites(mid, c, seen, now, from + 1);
        WritesTrans(db, mid, P.OmitFrom(mid, c, seen, now, from + 1), c);
      } else {
        OmitWrites(db, c, seen, now, from + 1);
      }
    }
  }

  lemma CompletionWrites(db: P.Db, x: P.Completion)
    requires P.Bound(db) && P.Complete(db, x).Some?
    ensures Writes(db, P.Complete(db, x).value, x.claim) && P.Bound(P.Complete(db, x).value)
  {
    if x.succeeded {
      P.CompletionEffect(db, x, P.KeyOf(x.claim, 0));
      PersistWrites(db, x, x.problems);
      var p := P.PersistAll(db, x, x.problems).value;
      P.PersistAllEffect(db, x, x.problems);
      RecoverWrites(p, x.claim, x.recoveries);
      var r := P.RecoverAll(p, x.claim, x.recoveries).value;
      if x.complete { OmitWrites(r, x.claim, P.Seen(x), x.now, 0); }
      WritesTrans(db, p, r, x.claim);
      WritesTrans(db, r, P.Complete(db, x).value, x.claim);
    }
  }

  /* ---------- the invariant ---------- */

  /** An accepted problem completion of the row's source carried the row's slot. */
  predicate Accepted(sync: S.Db, r: P.Row) {
    exists j :: 0 <= j < |sync.accepted| && sync.accepted[j].kind == S.Problem
                && sync.accepted[j].source == r.key.source && sync.accepted[j].slot == Some(RowSlot(r))
  }

  ghost predicate Inv(w: World) {
    && S.Inv(w.sync) && P.Bound(w.monitoring)
    && (forall i :: 0 <= i < |w.monitoring.problems| ==> Accepted(w.sync, w.monitoring.problems[i]))
  }

  lemma AcceptedStays(a: S.Db, b: S.Db, r: P.Row, s: P.Row)
    requires a.accepted <= b.accepted && Accepted(a, r)
    requires s.key.source == r.key.source && RowSlot(s) == RowSlot(r)
    ensures Accepted(b, s)
  {
    var j :| 0 <= j < |a.accepted| && a.accepted[j].kind == S.Problem
             && a.accepted[j].source == r.key.source && a.accepted[j].slot == Some(RowSlot(r));
    assert b.accepted[j] == a.accepted[j];
  }

  /** Identities stay and no row's slot moves back. */
  predicate Advances(a: P.Db, b: P.Db) {
    && |a.problems| <= |b.problems|
    && (forall i :: 0 <= i < |a.problems| ==>
          b.problems[i].key == a.problems[i].key
          && S.SlotLe(RowSlot(a.problems[i]), RowSlot(b.problems[i])))
  }

  /** The slot of an acceptable problem claim is later than every slot accepted before. */
  lemma ClaimIsNewer(sync: S.Db, token: nat, out: S.Outcome, now: int, r: P.Row)
    requires S.Inv(sync) && S.Terminal(out.state) && S.CanComplete(sync, token)
    requires sync.claims[token].kind == S.Problem && sync.claims[token].source == r.key.source
    requires Accepted(sync, r)
    ensures sync.claims[token].slot.Some? && S.SlotLt(RowSlot(r), sync.claims[token].slot.value)
  {
    var c := sync.claims[token];
    assert S.ClaimOk(sync, token);
    Safety.AcceptanceIsNext(sync, token, out, now);
    var after := S.CompleteOp(sync, token, out, now).value.accepted;
    var j :| 0 <= j < |sync.accepted| && sync.accepted[j].kind == S.Problem
             && sync.accepted[j].source == r.key.source && sync.accepted[j].slot == Some(RowSlot(r));
    assert after[j] == sync.accepted[j] && after[|sync.accepted|] == S.Acceptance(token, c.source, c.kind, c.slot);
    assert S.SameStream(after[j], after[|sync.accepted|]);
  }

  lemma CompleteStep(cfg: S.Config, w: World, token: nat, out: S.Outcome, now: int, x: P.Completion)
    requires Inv(w) && S.Terminal(out.state) && token < |w.sync.claims| && UnderClaim(w.sync.claims[token], x)
    requires S.CompleteOp(w.sync, token, out, now).Some? && P.Complete(w.monitoring, x).Some?
    ensures var w' := World(S.CompleteOp(w.sync, token, out, now).value, P.Complete(w.monitoring, x).value);
      Inv(w') && Advances(w.monitoring, w'.monitoring)
  {
    var s', m, m' := S.CompleteOp(w.sync, token, out, now).value, w.monitoring, P.Complete(w.monitoring, x).value;
    var c, n := w.sync.claims[token], |w.sync.accepted|;
    Safety.CompleteInv(cfg, w.sync, S.DoComplete(token, out, now));
    CompletionWrites(m, x);
    assert s'.accepted[n] == S.Acceptance(token, c.source, c.kind, c.slot);
    forall i | 0 <= i < |m'.problems| ensures Accepted(s', m'.problems[i]) {
      if WrittenBy(m'.problems[i], x.claim) {
        assert s'.accepted[n].slot == Some(RowSlot(m'.problems[i]));
      } else {
        AcceptedStays(w.sync, s', m.problems[i], m'.problems[i]);
      }
    }
    forall i | 0 <= i < |m.problems| ensures S.SlotLe(RowSlot(m.problems[i]), RowSlot(m'.problems[i])) {
      if RowSlot(m'.problems[i]) != RowSlot(m.problems[i]) { ClaimIsNewer(w.sync, token, out, now, m.problems[i]); }
    }
  }

  lemma StepInv(cfg: S.Config, w: World, e: Event)
    requires Inv(w)
    ensures Inv(Step(cfg, w, e)) && Advances(w.monitoring, Step(cfg, w, e).monitoring)
  {
    var w' := Step(cfg, w, e);
    match e
    case Sync(e) =>
      Safety.StepInv(cfg, w.sync, e);
      Safety.StepEvolves(cfg, w.sync, e);
      forall i | 0 <= i < |w'.monitoring.problems| ensures Accepted(w'.sync, w'.monitoring.problems[i]) {
        AcceptedStays(w.sync, w'.sync, w.monitoring.problems[i], w'.monitoring.problems[i]);
      }
    case CompleteProblems(token, out, now, x) => if w' != w { CompleteStep(cfg, w, token, out, now, x); }
  }

  lemma AdvancesTrans(a: P.Db, b: P.Db, c: P.Db)
    requires Advances(a, b) && Advances(b, c)
    ensures Advances(a, c)
  {
    forall i | 0 <= i < |a.problems| ensures S.SlotLe(RowSlot(a.problems[i]), RowSlot(c.problems[i])) {
      assert S.SlotLe(RowSlot(a.problems[i]), RowSlot(b.problems[i]));
    }
  }

  /** Over every run of claims, reaps, requeues and completions the poll slot of a problem row
      never moves back: what a newer poll wrote is not overwritten by a late one. */
  lemma {:induction false} RowsNeverGoBack(cfg: S.Config, w: World, es: seq<Event>)
    requires Inv(w)
    ensures Inv(Run(cfg, w, es)) && Advances(w.monitoring, Run(cfg, w, es).monitoring)
    decreases |es|
  {
    if es != [] {
      StepInv(cfg, w, es[0]);
      RowsNeverGoBack(cfg, Step(cfg, w, es[0]), es[1..]);
      AdvancesTrans(w.monitoring, Step(cfg, w, es[0]).monitoring, Run(cfg, w, es).monitoring);
    }
  }

  /** .. from empty tables on, whatever the sources. */
  lemma NewerPollsWin(cfg: S.Config, sync: S.Db, es: seq<Event>, more: seq<Event>)
    requires S.Initial(sync)
    ensures var w := Run(cfg, World(sync, P.Empty), es);
      Inv(w) && Advances(w.monitoring, Run(cfg, w, more).monitoring)
  {
    RowsNeverGoBack(cfg, World(sync, P.Empty), es);
    RowsNeverGoBack(cfg, Run(cfg, World(sync, P.Empty), es), more);
  }
}
