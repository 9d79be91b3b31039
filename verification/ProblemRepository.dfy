/**
 The completion transaction over mutable tables: loops that update rows in place and
 append to the log and the outbox, rolled back as a whole when one of them raises.
 */
module ProblemRepository {
  import opened Common
  import opened ProblemState
  import ProblemLog

  class Repository {
    var bindings: map<Key, Binding>
    var problems: seq<Row>
    var transitions: seq<Transition>
    var outbox: seq<DomainEvent>

    function View(): Db
      reads this
    {
      Db(bindings, problems, transitions, outbox)
    }

    constructor ()
      ensures View() == Empty
      ensures ProblemLog.LogInv(View())
    {
      bindings, problems, transitions, outbox := map[], [], [], [];
    }

    method InsertTransition(t: Transition)
      modifies this`transitions, this`outbox
      ensures View() == Emit(old(View()), t)
    {
      transitions := transitions + [t];
      outbox := outbox + [EventOf(t)];
    }

    method Resolve(c: Claim, id: nat, at: int, reason: Reason)
      requires id < |problems|
      modifies this
      ensures View() == ResolveRow(old(View()), c, id, at, reason)
    {
      var r := problems[id];
      problems := problems[id := r.(state := Resolved, resolvedAt := Some(at), lastConfirmedAt := at,
                                    evidence := Current,
                                    revision := r.revision + 1, pollEpoch := c.pollEpoch,
                                    pollGeneration := c.pollGeneration)];
      InsertTransition(Transition(id, Some(Active), Resolved, Some(r.severity), r.severity, reason, r.revision + 1));
    }

    method PersistProblem(x: Completion, p: Observed) returns (ok: bool)
      modifies this
      ensures ok <==> PersistOne(old(View()), x, p).Some?
      ensures ok ==> View() == PersistOne(old(View()), x, p).value
    {
      if p.resource !in x.currentResources && p.event in x.triggers { return false; }
      if p.event !in x.triggers { return true; }
      var k, trigger := KeyOf(x.claim, p.event), x.triggers[p.event];
      if k !in bindings {
        var id := |problems|;
        bindings := bindings[k := Binding(id, p.resource, trigger)];
        problems := problems + [NewRow(x.claim, p)];
        InsertTransition(Transition(id, None, Active, None, p.severity, ProviderPositive, 1));
        return true;
      }
      var b := bindings[k];
      if b.resource != p.resource || b.trigger != trigger || b.problem >= |problems| { return false; }
      var r := problems[b.problem];
      if r.state == Resolved { return false; }
      if Changed(r, p) {
        problems := problems[b.problem :=
          r.(severity := p.severity, summary := p.summary, lastConfirmedAt := p.openedAt, evidence := Current,
             revision := r.revision + 1, pollEpoch := x.claim.pollEpoch, pollGeneration := x.claim.pollGeneration,
             acknowledged := p.acknowledged, metadata := p.metadata)];
        if r.severity != p.severity {
          InsertTransition(Transition(b.problem, Some(Active), Active, Some(r.severity), p.severity, SeverityChange,
                                      r.revision + 1));
        }
      } else {
        problems := problems[b.problem :=
          r.(lastConfirmedAt := Max(r.lastConfirmedAt, p.openedAt), evidence := Current,
             pollEpoch := x.claim.pollEpoch, pollGeneration := x.claim.pollGeneration)];
      }
      ok := true;
    }

    /** _persist_problems; returns the events it saw, or raises. */
    method PersistProblems(x: Completion) returns (ok: bool, seen: set<nat>)
      modifies this
      ensures ok <==> PersistAll(old(View()), x, x.problems).Some?
      ensures ok ==> View() == PersistAll(old(View()), x, x.problems).value && seen == Seen(x)
    {
      seen := {};
      for k := 0 to |x.problems|
        invariant PersistAll(View(), x, x.problems[k..]) == PersistAll(old(View()), x, x.problems)
        invariant seen + Bindable(x.problems[k..], x.triggers) == Seen(x)
      {
        assert x.problems[k..][1..] == x.problems[k + 1..];
        ok := PersistProblem(x, x.problems[k]);
        if !ok { return; }
        if x.problems[k].event in x.triggers {
          seen := seen + {x.problems[k].event};
        }
      }
      ok := true;
    }

    /** _persist_recoveries */
    method PersistRecoveries(c: Claim, recs: seq<Recovery>) returns (ok: bool)
      modifies this
      ensures ok <==> RecoverAll(old(View()), c, recs).Some?
      ensures ok ==> View() == RecoverAll(old(View()), c, recs).value
    {
      for k := 0 to |recs|
        invariant RecoverAll(View(), c, recs[k..]) == RecoverAll(old(View()), c, recs)
      {
        assert recs[k..][1..] == recs[k + 1..];
        var key := KeyOf(c, recs[k].event);
        if key in bindings && bindings[key].problem < |problems| {
          var id := bindings[key].problem;
          if problems[id].state == Active {
            Resolve(c, id, recs[k].clock, ProviderRecovery);
          } else if problems[id].resolvedAt.Some? && problems[id].resolvedAt.value != recs[k].clock {
            return false;
          }
        }
      }
      ok := true;
    }

    /** _apply_omission: negative authority only on a complete snapshot. */
    method ApplyOmission(c: Claim, complete: bool, seen: set<nat>, now: int)
      modifies this
      ensures View()
           == if complete then OmitFrom(old(View()), c, seen, now, 0) else DegradeOmitted(old(View()), c, seen)
    {
      if complete {
        var i := 0;
        while i < |problems|
          invariant i <= |problems|
          invariant OmitFrom(View(), c, seen, now, i) == OmitFrom(old(View()), c, seen, now, 0)
          decreases |problems| - i
        {
          if Omitted(c, seen, problems[i]) {
            Resolve(c, i, now, AuthoritativeNegative);
          }
          i := i + 1;
        }
      } else {
        problems := seq(|problems|, i requires 0 <= i < |problems| reads this =>
          if Omitted(c, seen, problems[i]) then problems[i].(evidence := EvidenceReconciliation) else problems[i]);
      }
    }

    /** The projection part of complete_problem_state, all or nothing. */
    method CompleteProblemState(x: Completion) returns (committed: bool)
      requires ProblemLog.LogInv(View())
      modifies this
      ensures View() == Step(old(View()), x)
      ensures committed == Complete(old(View()), x).Some?
      ensures ProblemLog.LogInv(View()) && ProblemLog.Grows(old(View()), View())
    {
      ProblemLog.StepLog(View(), x);
      var saved := View();
      committed := true;
      if x.succeeded {
        var seen;
        committed, seen := PersistProblems(x);
        if committed {
          committed := PersistRecoveries(x.claim, x.recoveries);
        }
        if committed {
          ApplyOmission(x.claim, x.complete, seen, x.now);
        } else {
          bindings, problems, transitions, outbox := saved.bindings, saved.problems, saved.transitions, saved.outbox;
        }
      }
    }
  }
}
