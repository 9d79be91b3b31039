/** The notification tables updated in place, each transaction against its specification. */
module NotificationStore {
  import opened Common
  import opened Notification
  import Safety = NotificationSafety

  class Store {
    var intents: seq<Intent>
    var callbacks: set<nat>

    function View(): Db
      reads this
    {
      Db(intents, callbacks)
    }

    constructor ()
      ensures View() == Empty && Safety.Inv(View())
    {
      intents, callbacks := [], {};
    }

    method CreateIntent() returns (id: nat)
      modifies this
      ensures View() == Step(old(View()), Created)
      ensures id == |old(intents)|
    {
      id := |intents|;
      intents := intents + [Intent([], [], [Entry(1, Pending)], None)];
    }

    /** _recompute_projection */
    method RecomputeProjection(i: nat)
      requires i < |intents|
      modifies this`intents
      ensures intents == old(intents)[i := Recompute(old(intents)[i])]
    {
      var x := intents[i];
      var attemptState := AttemptState(x.attempts);
      var best := Best(x.evidence);
      var current := attemptState;
      if best.Some? && Rank(best.value) > Rank(attemptState) { current := best.value; }
      var terminal := current == Delivered || current == ExternalRead;
      var exhausted := |x.attempts| >= MAX_ATTEMPTS;
      var failedLast := attemptState == Failed || attemptState == Unknown;
      var revision := 1;
      if x.projection.Some? { revision := x.projection.value.revision + 1; }
      intents := intents[i := x.(projection := Some(Projection(
        current, |x.attempts|,
        !terminal && failedLast && !exhausted, !terminal && exhausted && failedLast, revision)))];
    }

    /** record_evidence: false for a duplicate callback (or a refused state). */
    method RecordEvidenceRow(i: nat, s: State, callback: Option<nat>) returns (recorded: bool)
      requires i < |intents|
      modifies this
      ensures View() == RecordEvidence(old(View()), i, s, callback)
      ensures recorded <==> EvidenceState(s) && (callback == None || callback.value !in old(callbacks))
    {
      if !EvidenceState(s) || (callback.Some? && callback.value in callbacks) { return false; }
      if callback.Some? { callbacks := callbacks + {callback.value}; }
      intents := intents[i := intents[i].(evidence := intents[i].evidence + [s])];
      RecomputeProjection(i);
      recorded := true;
    }

    /** claim_dispatch, for the pending entry its SELECT picked. */
    method ClaimEntry(i: nat, e: nat)
      requires i < |intents| && CanClaim(intents[i], e)
      modifies this`intents
      ensures intents == old(intents)[i := ClaimDispatch(old(intents)[i], e)]
    {
      var x := intents[i];
      intents := intents[i := x.(entries := x.entries[e := x.entries[e].(state := Claimed)])];
    }

    /** complete_dispatch */
    method CompleteEntry(i: nat, e: nat, outcome: State)
      requires i < |intents| && CanComplete(intents[i], e, outcome)
      modifies this`intents
      ensures intents == old(intents)[i := CompleteDispatch(old(intents)[i], e, outcome)]
    {
      var number := intents[i].entries[e].number;
      intents := intents[i := intents[i].(attempts := intents[i].attempts + [Attempt(number, outcome)],
                                          entries := intents[i].entries[e := intents[i].entries[e].(state := Done)])];
      RecomputeProjection(i);
      if Retryable(outcome) && number < MAX_ATTEMPTS {
        intents := intents[i := intents[i].(entries := intents[i].entries + [Entry(number + 1, Pending)])];
      }
    }

    /** One transaction of the dispatch worker; not done means it rolled back. */
    method ProcessPending(i: nat, e: nat, outcome: State, accepted: bool) returns (done: bool)
      modifies this
      ensures View() == Step(old(View()), Dispatched(i, e, outcome, accepted))
      ensures done ==> i < |intents| && intents[i].attempts != []
      ensures !done ==> View() == old(View())
    {
      if i >= |intents| || !CanClaim(intents[i], e) { return false; }
      var before := intents;
      ClaimEntry(i, e);
      if !CanComplete(intents[i], e, outcome) {
        intents := before;
        return false;
      }
      CompleteEntry(i, e, outcome);
      if accepted {
        var recorded := RecordEvidenceRow(i, ProviderAccepted, None);
      }
      done := true;
    }
  }
}
