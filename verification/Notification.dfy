/**
 Notification delivery: immutable attempts and provider evidence, a dispatch outbox whose
 retries form a chain, and a projection recomputed from the facts.  The rows of the four
 tables are grouped by intent; callback ids are unique across the tenant.
 */
module Notification {
  import opened Common

  const MAX_ATTEMPTS := 3

  datatype State = Dispatching | Unknown | Failed | Sent | ProviderAccepted | Delivered | ExternalRead

  function Rank(s: State): nat {
    match s
    case Dispatching => 0
    case Unknown => 0
    case Failed => 0
    case Sent => 1
    case ProviderAccepted => 2
    case Delivered => 3
    case ExternalRead => 4
  }

  datatype Attempt = Attempt(number: nat, outcome: State)

  datatype EntryState = Pending | Claimed | Done

  datatype Entry = Entry(number: nat, state: EntryState)

  datatype Projection = Projection(
    current: State, attemptCount: nat, retryRequired: bool, fallback: bool, revision: nat)

  datatype Intent = Intent(
    attempts: seq<Attempt>, evidence: seq<State>, entries: seq<Entry>, projection: Option<Projection>)

  datatype Db = Db(intents: seq<Intent>, callbacks: set<nat>)

  const Empty := Db([], {})

  /* ---------- the projection ---------- */

  /** ORDER BY attempt_number DESC LIMIT 1 */
  function LastAttempt(attempts: seq<Attempt>): Option<Attempt> {
    if attempts == [] then None
    else
      var rest := LastAttempt(attempts[1..]);
      if rest.Some? && rest.value.number >= attempts[0].number then rest else Some(attempts[0])
  }

  /** Python's max with a key: the first state of the greatest rank. */
  function Best(evidence: seq<State>): Option<State> {
    if evidence == [] then None
    else
      var rest := Best(evidence[1..]);
      if rest.Some? && Rank(rest.value) > Rank(evidence[0]) then rest else Some(evidence[0])
  }

  predicate Retryable(s: State) { s == Failed || s == Unknown }

  function AttemptState(attempts: seq<Attempt>): State {
    var last := LastAttempt(attempts);
    if last.Some? then last.value.outcome else Dispatching
  }

  function ShownState(attempts: seq<Attempt>, evidence: seq<State>): State {
    var best := Best(evidence);
    if best.Some? && Rank(best.value) > Rank(AttemptState(attempts)) then best.value else AttemptState(attempts)
  }

  predicate Terminal(s: State) { s == Delivered || s == ExternalRead }

  function Recompute(i: Intent): Intent {
    var current := ShownState(i.attempts, i.evidence);
    var failedLast := Retryable(AttemptState(i.attempts));
    var exhausted := |i.attempts| >= MAX_ATTEMPTS;
    i.(projection := Some(Projection(
      current, |i.attempts|,
      !Terminal(current) && failedLast && !exhausted,
      !Terminal(current) && exhausted && failedLast,
      if i.projection.Some? then i.projection.value.revision + 1 else 1)))
  }

  /* ---------- the transactions ---------- */

  /** A new intent starts with one pending entry for attempt 1. */
  const NewIntent := Intent([], [], [Entry(1, Pending)], None)

  function Create(db: Db): Db { db.(intents := db.intents + [NewIntent]) }

  predicate CanClaim(i: Intent, e: nat) { e < |i.entries| && i.entries[e].state == Pending }

  function ClaimDispatch(i: Intent, e: nat): Intent
    requires CanClaim(i, e)
  {
    i.(entries := i.entries[e := i.entries[e].(state := Claimed)])
  }

  /** The dispatch identity of an attempt is unique, and the outcome is checked. */
  predicate CanComplete(i: Intent, e: nat, outcome: State) {
    && e < |i.entries| && i.entries[e].state == Claimed
    && outcome != ExternalRead
    && (forall k :: 0 <= k < |i.attempts| ==> i.attempts[k].number != i.entries[e].number)
  }

  /** Attempt row, entry done, projection, and the bounded retry. */
  function CompleteDispatch(i: Intent, e: nat, outcome: State): Intent
    requires CanComplete(i, e, outcome)
  {
    var number := i.entries[e].number;
    var done := Recompute(i.(attempts := i.attempts + [Attempt(number, outcome)],
                             entries := i.entries[e := i.entries[e].(state := Done)]));
    if Retryable(outcome) && number < MAX_ATTEMPTS
    then done.(entries := done.entries + [Entry(number + 1, Pending)])
    else done
  }

  predicate EvidenceState(s: State) { s != Dispatching && s != Sent }

  /** Append and recompute, unless the callback id was already recorded. */
  function RecordEvidence(db: Db, i: nat, s: State, callback: Option<nat>): Db
    requires i < |db.intents|
  {
    if !EvidenceState(s) || (callback.Some? && callback.value in db.callbacks) then db
    else
      var intent := db.intents[i];
      Db(db.intents[i := Recompute(intent.(evidence := intent.evidence + [s]))],
         if callback.Some? then db.callbacks + {callback.value} else db.callbacks)
  }

  /** One turn of the dispatch worker: a single transaction that claims an entry, completes it
      and records a provider acceptance as evidence; anything that raises rolls it back. */
  function Dispatch(db: Db, i: nat, e: nat, outcome: State, accepted: bool): Db {
    if i < |db.intents| && CanClaim(db.intents[i], e) then
      var claimed := ClaimDispatch(db.intents[i], e);
      if CanComplete(claimed, e, outcome) then
        var db1 := db.(intents := db.intents[i := CompleteDispatch(claimed, e, outcome)]);
        if accepted then RecordEvidence(db1, i, ProviderAccepted, None) else db1
      else db
    else db
  }

  datatype Event =
    | Created
    | Dispatched(intent: nat, entry: nat, outcome: State, accepted: bool)
    | CalledBack(target: nat, state: State, callback: Option<nat>)

  function Step(db: Db, e: Event): Db {
    match e
    case Created => Create(db)
    case Dispatched(intent, entry, outcome, accepted) => Dispatch(db, intent, entry, outcome, accepted)
    case CalledBack(target, state, callback) =>
      if target < |db.intents| then RecordEvidence(db, target, state, callback) else db
  }

  function Run(db: Db, es: seq<Event>): Db
    decreases |es|
  {
    if es == [] then db else Run(Step(db, es[0]), es[1..])
  }
}
