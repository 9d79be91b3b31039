/**
 What each notification transaction leaves behind, state by state: what follows an attempt, what a
 callback adds, and which state is shown.
 */
module NotificationEffects {
  import opened Common
  import opened Notification
  import opened NotificationSafety

  /** Someone saw the notification, whatever the attempts say. */
  predicate Seen(evidence: seq<State>) { Delivered in evidence || ExternalRead in evidence }

  /** No entry is left, or the one for attempt `n` is. */
  predicate NothingPending(x: Intent) { forall k :: 0 <= k < |x.entries| ==> x.entries[k].state != Pending }

  predicate OnlyPending(x: Intent, n: nat) {
    && (exists k :: 0 <= k < |x.entries| && x.entries[k] == Entry(n, Pending))
    && (forall j, k :: 0 <= j < k < |x.entries| ==> x.entries[j].state != Pending || x.entries[k].state != Pending)
    && (forall k :: 0 <= k < |x.entries| && x.entries[k].state == Pending ==> x.entries[k].number == n)
  }

  /** What is left to do and what is asked for after attempt `n` came to `outcome`. */
  predicate Answers(y: Intent, n: nat, outcome: State, seen: bool)
    requires y.projection.Some?
  {
    var p := y.projection.value;
    if outcome == Failed || outcome == Unknown then
      && (n < 3 ==> OnlyPending(y, n + 1) && p.retryRequired == !seen && !p.fallback)
      && (n >= 3 ==> NothingPending(y) && p.fallback == !seen && !p.retryRequired)
    else NothingPending(y) && !p.retryRequired && !p.fallback
  }

  lemma DispatchGoesThrough(db: Db, i: nat, e: nat, outcome: State)
    requires Inv(db) && i < |db.intents| && e < |db.intents[i].entries|
    requires db.intents[i].entries[e].state == Pending && outcome != ExternalRead
    ensures var x := db.intents[i];
      && CanClaim(x, e) && CanComplete(ClaimDispatch(x, e), e, outcome)
      && e == |x.attempts| && x.entries[e].number == e + 1 && e < 3
  {
    assert IntentOk(db.intents[i]);
  }

  /** After any run, a pending entry that is dispatched becomes the next attempt, and what
      follows depends on its outcome alone: after a first or second attempt that failed or whose
      fate is unknown exactly one entry waits, for the next attempt, and a retry is asked for
      unless someone saw the notification; after such a third one nothing waits and the fallback
      is asked for on the same proviso; after any other outcome nothing waits and nothing is
      asked for. */
  lemma WhatFollowsAnAttempt(es: seq<Event>, i: nat, e: nat, outcome: State, accepted: bool)
    requires i < |Run(Empty, es).intents| && e < |Run(Empty, es).intents[i].entries|
    requires Run(Empty, es).intents[i].entries[e].state == Pending && outcome != ExternalRead
    ensures var db := Run(Empty, es);
      var db' := Step(db, Dispatched(i, e, outcome, accepted));
      && |db'.intents| == |db.intents|
      && (forall j :: 0 <= j < |db.intents| && j != i ==> db'.intents[j] == db.intents[j])
      && db'.callbacks == db.callbacks
      && var x, y, n := db.intents[i], db'.intents[i], db.intents[i].entries[e].number;
      && n == |x.attempts| + 1 && y.attempts == x.attempts + [Attempt(n, outcome)]
      && y.evidence == x.evidence + (if accepted then [ProviderAccepted] else [])
      && y.projection.Some? && y.projection.value.attemptCount == n
      && Answers(y, n, outcome, Seen(x.evidence))
  {
    var db := Run(Empty, es);
    RunInv(Empty, es);
    StepInv(db, Dispatched(i, e, outcome, accepted));
    DispatchRows(db, i, e, outcome, accepted);
    var y := Step(db, Dispatched(i, e, outcome, accepted)).intents[i];
    assert IntentOk(y);
    FlagsOf(y);
    AnswersOf(y, Seen(db.intents[i].evidence));
  }

  /** The rows a dispatch adds. */
  lemma DispatchRows(db: Db, i: nat, e: nat, outcome: State, accepted: bool)
    requires Inv(db) && i < |db.intents| && e < |db.intents[i].entries|
    requires db.intents[i].entries[e].state == Pending && outcome != ExternalRead
    ensures var db' := Step(db, Dispatched(i, e, outcome, accepted));
      && |db'.intents| == |db.intents| && db'.callbacks == db.callbacks
      && (forall j :: 0 <= j < |db.intents| && j != i ==> db'.intents[j] == db.intents[j])
      && var x, y := db.intents[i], db'.intents[i];
      && e == |x.attempts| && x.entries[e].number == e + 1 && e < 3
      && y.attempts == x.attempts + [Attempt(e + 1, outcome)]
      && y.evidence == x.evidence + (if accepted then [ProviderAccepted] else [])
  {
    DispatchGoesThrough(db, i, e, outcome);
  }

  lemma AnswersOf(y: Intent, seen: bool)
    requires IntentOk(y) && y.attempts != [] && y.projection.Some? && seen == Seen(y.evidence)
    ensures Answers(y, |y.attempts|, y.attempts[|y.attempts| - 1].outcome, seen)
  {
    FlagsOf(y);
    PendingFollows(y);
  }

  lemma PendingFollows(y: Intent)
    requires IntentOk(y) && y.attempts != []
    ensures var n, last := |y.attempts|, y.attempts[|y.attempts| - 1].outcome;
      if n < 3 && (last == Failed || last == Unknown) then OnlyPending(y, n + 1) else NothingPending(y)
  {
    var n := |y.attempts|;
    if Open(y.attempts) { assert y.entries[n] == Entry(n + 1, Pending); }
  }

  /** An entry that is not pending, or an outcome no dispatch may report, changes nothing. */
  lemma NothingElseIsDispatched(db: Db, i: nat, e: nat, outcome: State, accepted: bool)
    requires i >= |db.intents| || e >= |db.intents[i].entries|
             || db.intents[i].entries[e].state != Pending || outcome == ExternalRead
    ensures Step(db, Dispatched(i, e, outcome, accepted)) == db
  {
  }

  /** A callback adds one piece of evidence unless it reports what only a dispatch knows or its
      id was seen before; then it changes nothing.  Attempts and entries are never touched. */
  lemma WhatACallbackAdds(es: seq<Event>, i: nat, s: State, callback: Option<nat>)
    requires i < |Run(Empty, es).intents|
    ensures var db := Run(Empty, es);
      var db' := Step(db, CalledBack(i, s, callback));
      if s in {Dispatching, Sent} || (callback.Some? && callback.value in db.callbacks) then db' == db
      else
        && |db'.intents| == |db.intents|
        && (forall j :: 0 <= j < |db.intents| && j != i ==> db'.intents[j] == db.intents[j])
        && db'.callbacks == db.callbacks + (if callback.Some? then {callback.value} else {})
        && var x, y := db.intents[i], db'.intents[i];
        && y.attempts == x.attempts && y.entries == x.entries && y.evidence == x.evidence + [s]
        && y.projection.Some?
        && (s in {Delivered, ExternalRead} ==> !y.projection.value.retryRequired && !y.projection.value.fallback)
  {
    var db := Run(Empty, es);
    RunInv(Empty, es);
    StepInv(db, CalledBack(i, s, callback));
    var y := Step(db, CalledBack(i, s, callback)).intents[i];
    assert IntentOk(y);
    if y.projection.Some? { FlagsOf(y); }
  }

  /** An intent is created with one entry pending, for its first attempt. */
  lemma WhatIsCreated(db: Db)
    ensures Step(db, Created) == Db(db.intents + [Intent([], [], [Entry(1, Pending)], None)], db.callbacks)
  {
  }

  /** Some attempt or some evidence says so. */
  predicate Known(x: Intent, s: State) {
    s in x.evidence || exists k :: 0 <= k < |x.attempts| && x.attempts[k].outcome == s
  }

  /** The shown state, by name: read elsewhere, else delivered, else accepted by the provider,
      else sent, if any fact says so; otherwise what the last attempt came to. */
  lemma ShownStateByName(es: seq<Event>, i: nat)
    requires i < |Run(Empty, es).intents| && Run(Empty, es).intents[i].projection.Some?
    ensures var x := Run(Empty, es).intents[i];
      x.projection.value.current ==
        if Known(x, ExternalRead) then ExternalRead
        else if Known(x, Delivered) then Delivered
        else if Known(x, ProviderAccepted) then ProviderAccepted
        else if Known(x, Sent) then Sent
        else if x.attempts == [] then Dispatching
        else x.attempts[|x.attempts| - 1].outcome
  {
    RunInv(Empty, es);
    var x := Run(Empty, es).intents[i];
    assert IntentOk(x);
    ChainState(x.attempts);
    BestIsGreatest(x.evidence);
    forall s | s !in {Failed, Unknown}
      ensures Known(x, s) <==> s in x.evidence || (x.attempts != [] && x.attempts[|x.attempts| - 1].outcome == s)
    {
    }
  }
}
