/**
 The sync-operation protocol: operations are enqueued with a snapshot of the source's
 authority, claimed under a token, fenced at completion, and recovered by the reaper,
 the zombie sweep and the reconciler.

 Tables are sequences: a row's position is its opaque id, rows are never deleted, so a
 fresh id is the next position.  A claim token is the position of the claim in `claims`.
 */
module SyncOperations {
  import opened Common

  datatype Kind = Validation | HostInventory | MetricDefinition | CurrentState | History | Problem

  datatype OpState = Pending | Running | Succeeded | ReconciliationRequired | FailedTerminal

  /** What every fence compares: source instance generation and the two revisions.
      Generation ids are numbered in order of creation. */
  datatype Authority = Authority(generation: int, configuration: int, scope: int)

  datatype Slot = Slot(epoch: int, generation: int)

  datatype Source = Source(
    authority: Authority,
    binding: int,
    evidence: Evidence,
    definitionSlot: Slot,
    currentSlot: Slot,
    problemSlot: Slot,
    admittedEpoch: Option<int>)

  datatype Op = Op(
    source: nat,
    kind: Kind,
    authority: Authority,
    slot: Option<Slot>,
    state: OpState,
    token: Option<nat>,
    createdAt: int,
    startedAt: int,
    completedAt: int,
    recovery: nat)

  datatype Claim = Claim(
    op: nat, source: nat, kind: Kind, authority: Authority, binding: int, slot: Option<Slot>)

  /** A source row fetched by an enqueuer, held in its memory until it inserts. */
  datatype Read = Read(source: nat, authority: Authority, definitionSlot: Slot, currentSlot: Slot)

  datatype Outcome = Outcome(
    state: OpState, evidence: Evidence, completeSnapshot: bool, reassociate: bool, chain: bool)

  datatype Config = Config(leaseSeconds: int, recoveryMax: nat, backoffSeconds: int)

  datatype Acceptance = Acceptance(token: nat, source: nat, kind: Kind, slot: Option<Slot>)

  datatype Db = Db(
    sources: seq<Source>,
    ops: seq<Op>,
    claims: seq<Claim>,     // every claim ever handed out; position is the token
    accepted: seq<Acceptance>,  // accepted completions, in commit order
    fetched: seq<Read>)

  predicate MetricPoll(k: Kind) { k == MetricDefinition || k == CurrentState }

  predicate Polled(k: Kind) { MetricPoll(k) || k == Problem }

  predicate Terminal(s: OpState) { s == Succeeded || s == ReconciliationRequired || s == FailedTerminal }

  function SlotOf(s: Source, k: Kind): Slot
    requires Polled(k)
  {
    match k
    case MetricDefinition => s.definitionSlot
    case CurrentState => s.currentSlot
    case _ => s.problemSlot
  }

  function WithSlot(s: Source, k: Kind, slot: Slot): Source
    requires Polled(k)
  {
    match k
    case MetricDefinition => s.(definitionSlot := slot)
    case CurrentState => s.(currentSlot := slot)
    case _ => s.(problemSlot := slot)
  }

  /* ---------- transactions ---------- */

  /** The part of every claim fence that does not depend on the operation's state. */
  predicate Fence(s: Source, o: Op) {
    && s.authority == o.authority
    && (MetricPoll(o.kind) ==>
          && o.slot.Some?
          && SlotOf(s, o.kind).epoch == o.slot.value.epoch
          && SlotOf(s, o.kind).generation == o.slot.value.generation - 1)
  }

  predicate Claimable(s: Source, o: Op) {
    && o.state == Pending
    && o.token == None
    && Fence(s, o)
    && (o.kind == Problem ==> s.evidence == Current && s.admittedEpoch == Some(s.problemSlot.epoch))
  }

  /** The fence, and the whole claim test, of a row of the operation table. */
  predicate FenceHolds(db: Db, id: nat) {
    id < |db.ops| && db.ops[id].source < |db.sources| && Fence(db.sources[db.ops[id].source], db.ops[id])
  }

  predicate CanClaim(db: Db, id: nat) {
    id < |db.ops| && db.ops[id].source < |db.sources| && Claimable(db.sources[db.ops[id].source], db.ops[id])
  }

  /** Insert an operation row from a previously read source row. */
  function NewOp(r: Read, kind: Kind, withSlot: bool, now: int): Op {
    var slot := match kind
      case MetricDefinition =>
        if withSlot then Some(Slot(r.definitionSlot.epoch, r.definitionSlot.generation + 1)) else None
      case CurrentState => if withSlot then Some(Slot(r.currentSlot.epoch, r.currentSlot.generation + 1)) else None
      case _ => None;
    Op(r.source, kind, r.authority, slot, Pending, None, now, 0, 0, 0)
  }

  function ReadOf(db: Db, src: nat): Read
    requires src < |db.sources|
  {
    var s := db.sources[src];
    Read(src, s.authority, s.definitionSlot, s.currentSlot)
  }

  /** A claim transaction; None is the rolled-back one.  A history claim that finds no
      targets succeeds the operation on the spot and hands out nothing usable. */
  function ClaimOp(db: Db, id: nat, now: int, noTargets: bool): Option<Db>
  {
    if CanClaim(db, id) then
      var o := db.ops[id];
      var s := db.sources[o.source];
      var slot := if o.kind == Problem then Some(Slot(s.problemSlot.epoch, s.problemSlot.generation + 1)) else o.slot;
      var s' := if o.kind == Problem then s.(problemSlot := slot.value) else s;
      var o' := o.(state := Running, token := Some(|db.claims|), startedAt := now, slot := slot);
      var o'' := if o.kind == History && noTargets then o'.(state := Succeeded, completedAt := now) else o';
      Some(db.(sources := db.sources[o.source := s'],
               ops := db.ops[id := o''],
               claims := db.claims + [Claim(id, o.source, o.kind, o.authority, s.binding, slot)]))
    else
      None
  }

  /** The completion fence: the token still holds a running operation and the source's
      authority, binding (where compared) and poll slot are those of the claim. */
  predicate CompletionFence(db: Db, token: nat) {
    token < |db.claims| &&
    var c := db.claims[token];
    c.op < |db.ops| && c.source < |db.sources| &&
    var o := db.ops[c.op];
    var s := db.sources[c.source];
    && o.state == Running
    && o.token == Some(token)
    && s.authority == c.authority
    && (c.kind in {Validation, HostInventory, MetricDefinition} ==> s.binding == c.binding)
    && (MetricPoll(c.kind) ==>
          c.slot.Some?
          && SlotOf(s, c.kind).epoch == c.slot.value.epoch
          && SlotOf(s, c.kind).generation == c.slot.value.generation - 1)
    && (c.kind == Problem ==> c.slot == Some(s.problemSlot))
  }

  /** A completion of the operation was accepted before. */
  predicate Completed(db: Db, op: nat) {
    exists i :: 0 <= i < |db.accepted| && db.accepted[i].token < |db.claims| && db.claims[db.accepted[i].token].op == op
  }

  predicate KeepsSnapshotEvidence(k: Kind) { k == HostInventory || k == MetricDefinition }

  /** The fence holds and the snapshot evidence row, unique per operation, is not there yet. */
  predicate CanComplete(db: Db, token: nat) {
    && CompletionFence(db, token)
    && (KeepsSnapshotEvidence(db.claims[token].kind) ==> !Completed(db, db.claims[token].op))
  }

  predicate LiveInventory(ops: seq<Op>, src: nat) {
    exists i :: 0 <= i < |ops| && ops[i].source == src && ops[i].kind == HostInventory
                && ops[i].state in {Pending, Running}
  }

  /** Operations a completion inserts: an inventory refresh after an association failure,
      or the next page of a history window. */
  function FollowUps(ops: seq<Op>, c: Claim, out: Outcome, now: int): seq<Op> {
    if c.kind == Problem && out.reassociate && !LiveInventory(ops, c.source) then
      [Op(c.source, HostInventory, c.authority, None, Pending, None, now, 0, 0, 0)]
    else if c.kind == History && out.chain then
      [Op(c.source, History, c.authority, None, Pending, None, now, 0, 0, 0)]
    else []
  }

  function CompletedState(c: Claim, out: Outcome): OpState {
    if c.kind == Problem && !out.completeSnapshot then ReconciliationRequired else out.state
  }

  function CompleteOp(db: Db, token: nat, out: Outcome, now: int): Option<Db>
    requires Terminal(out.state)
  {
    if CanComplete(db, token) then
      var c := db.claims[token];
      var o := db.ops[c.op];
      var s := db.sources[c.source].(evidence := out.evidence);
      var s' := if MetricPoll(c.kind) then WithSlot(s, c.kind, c.slot.value) else s;
      var o' := o.(state := CompletedState(c, out), completedAt := now,
                   token := if c.kind == Problem then None else o.token);
      var ops := db.ops[c.op := o'];
      Some(db.(sources := db.sources[c.source := s'],
               ops := ops + FollowUps(ops, c, out, now),
               accepted := db.accepted + [Acceptance(token, c.source, c.kind, c.slot)]))
    else
      None
  }

  predicate Orphaned(cfg: Config, o: Op, now: int) {
    o.state == Running && o.startedAt < now - cfg.leaseSeconds
  }

  function Reaped(cfg: Config, o: Op, now: int): Op {
    if !Orphaned(cfg, o, now) then o
    else if o.recovery < cfg.recoveryMax then
      o.(state := Pending, token := None, startedAt := 0, recovery := o.recovery + 1)
    else
      o.(state := FailedTerminal, token := None, completedAt := now)
  }

  function Reap(cfg: Config, db: Db, now: int): Db {
    db.(ops := seq(|db.ops|, i requires 0 <= i < |db.ops| => Reaped(cfg, db.ops[i], now)))
  }

  /** The sweep's WHERE clause, written as it is there: three differing authority columns,
      or for the two metric polls a missing or differing epoch or generation. */
  predicate Zombie(s: Source, o: Op) {
    && o.state == Pending
    && o.token == None
    && (|| s.authority.generation != o.authority.generation
        || s.authority.configuration != o.authority.configuration
        || s.authority.scope != o.authority.scope
        || (o.kind == MetricDefinition
            && (|| o.slot == None
                || s.definitionSlot.epoch != o.slot.value.epoch
                || s.definitionSlot.generation != o.slot.value.generation - 1))
        || (o.kind == CurrentState
            && (|| o.slot == None
                || s.currentSlot.epoch != o.slot.value.epoch
                || s.currentSlot.generation != o.slot.value.generation - 1)))
  }

  function Swept(sources: seq<Source>, o: Op, now: int): Op {
    if o.source < |sources| && Zombie(sources[o.source], o)
    then o.(state := FailedTerminal, completedAt := now)
    else o
  }

  function Sweep(db: Db, now: int): Db {
    db.(ops := seq(|db.ops|, i requires 0 <= i < |db.ops| => Swept(db.sources, db.ops[i], now)))
  }

  /** requeue_sync_operation: terminal back to pending, one more recovery, and a source in
      reconciliation_required becomes current again. */
  function Requeue(db: Db, id: nat): Option<Db> {
    if id < |db.ops| && db.ops[id].source < |db.sources|
       && db.ops[id].state in {ReconciliationRequired, FailedTerminal} then
      var o := db.ops[id];
      var s := db.sources[o.source];
      Some(db.(ops := db.ops[id := o.(state := Pending, token := None, startedAt := 0, completedAt := 0,
                                      recovery := o.recovery + 1)],
               sources := db.sources[o.source :=
                 if s.evidence == EvidenceReconciliation then s.(evidence := Current) else s]))
    else
      None
  }

  predicate LiveSuccessor(ops: seq<Op>, o: Op) {
    exists i :: 0 <= i < |ops| && ops[i].source == o.source && ops[i].kind == o.kind
                && ops[i].state in {Pending, Running}
  }

  predicate RequeueCandidate(cfg: Config, db: Db, id: nat, now: int) {
    && id < |db.ops|
    && db.ops[id].state in {ReconciliationRequired, FailedTerminal}
    && db.ops[id].recovery < cfg.recoveryMax
    && db.ops[id].completedAt < now - cfg.backoffSeconds
    && !LiveSuccessor(db.ops, db.ops[id])
  }

  function RequeueAll(db: Db, picks: seq<nat>): Db
    decreases |picks|
  {
    if picks == [] then db
    else
      var db1 := Requeue(db, picks[0]);
      RequeueAll(if db1.Some? then db1.value else db, picks[1..])
  }

  /** One reconciler pass: the 32 candidates completed longest ago, chosen before any of them is
      requeued. */
  predicate ReconcilePicks(cfg: Config, db: Db, picks: seq<nat>, now: int) {
    && |picks| <= 32
    && (forall i :: 0 <= i < |picks| ==> RequeueCandidate(cfg, db, picks[i], now))
    && (forall i, j :: 0 <= i < j < |picks| ==>
          picks[i] != picks[j] && db.ops[picks[i]].completedAt <= db.ops[picks[j]].completedAt)
    && (forall id :: 0 <= id < |db.ops| && RequeueCandidate(cfg, db, id, now) && id !in picks ==>
          |picks| == 32 && forall k :: 0 <= k < |picks| ==> db.ops[picks[k]].completedAt <= db.ops[id].completedAt)
  }

  /* ---------- runs ---------- */

  datatype Event =
    | FetchSource(src: nat)
    | Enqueue(read: nat, kind: Kind, withSlot: bool, now: int)
    | DoClaim(id: nat, noTargets: bool, now: int)
    | DoComplete(token: nat, out: Outcome, now: int)
    | DoReap(now: int)
    | DoSweep(now: int)
    | DoReconcile(picks: seq<nat>, now: int)
    | OperatorRequeue(id: nat)
    | Admit(src: nat)
    | Reconfigure(src: nat, to: Source)

  predicate SlotLe(a: Slot, b: Slot) {
    a.epoch < b.epoch || (a.epoch == b.epoch && a.generation <= b.generation)
  }

  predicate SlotLt(a: Slot, b: Slot) { SlotLe(a, b) && a != b }

  predicate AuthorityLe(a: Authority, b: Authority) {
    a.generation <= b.generation && a.configuration <= b.configuration && a.scope <= b.scope
  }

  /** Source rows only move forward: fresh generations, larger revisions, larger slots. */
  predicate SourceLe(s: Source, t: Source) {
    && AuthorityLe(s.authority, t.authority)
    && SlotLe(s.definitionSlot, t.definitionSlot)
    && SlotLe(s.currentSlot, t.currentSlot)
    && SlotLe(s.problemSlot, t.problemSlot)
  }

  /** Changes no code here performs: revisions may grow, a poll epoch may be bumped (which
      may restart its generation); inside an epoch the generation is not touched. */
  predicate Reconfigures(s: Source, t: Source) {
    && AuthorityLe(s.authority, t.authority)
    && (t.definitionSlot == s.definitionSlot || s.definitionSlot.epoch < t.definitionSlot.epoch)
    && (t.currentSlot == s.currentSlot || s.currentSlot.epoch < t.currentSlot.epoch)
    && (t.problemSlot == s.problemSlot || s.problemSlot.epoch < t.problemSlot.epoch)
  }

  function Step(cfg: Config, db: Db, e: Event): Db {
    match e
    case FetchSource(src) =>
      if src < |db.sources| then db.(fetched := db.fetched + [ReadOf(db, src)]) else db
    case Enqueue(r, kind, withSlot, now) =>
      if r < |db.fetched| then db.(ops := db.ops + [NewOp(db.fetched[r], kind, withSlot, now)]) else db
    case DoClaim(id, noTargets, now) =>
      var r := ClaimOp(db, id, now, noTargets); if r.Some? then r.value else db
    case DoComplete(token, out, now) =>
      if Terminal(out.state) then
        var r := CompleteOp(db, token, out, now); if r.Some? then r.value else db
      else db
    case DoReap(now) => Reap(cfg, db, now)
    case DoSweep(now) => Sweep(db, now)
    case DoReconcile(picks, now) =>
      if ReconcilePicks(cfg, db, picks, now) then RequeueAll(db, picks) else db
    case OperatorRequeue(id) =>
      var r := Requeue(db, id); if r.Some? then r.value else db
    case Admit(src) =>
      if src < |db.sources| then
        db.(sources := db.sources[src := db.sources[src].(admittedEpoch := Some(db.sources[src].problemSlot.epoch))])
      else db
    case Reconfigure(src, to) =>
      if src < |db.sources| && Reconfigures(db.sources[src], to)
      then db.(sources := db.sources[src := to]) else db
  }

  function Run(cfg: Config, db: Db, es: seq<Event>): Db
    decreases |es|
  {
    if es == [] then db else Run(cfg, Step(cfg, db, es[0]), es[1..])
  }

  predicate Initial(db: Db) {
    db.ops == [] && db.claims == [] && db.accepted == [] && db.fetched == []
  }

  /* ---------- the inductive invariant ---------- */

  predicate ReadOk(db: Db, r: Read) {
    r.source < |db.sources| &&
    var s := db.sources[r.source];
    && AuthorityLe(r.authority, s.authority)
    && SlotLe(r.definitionSlot, s.definitionSlot)
    && SlotLe(r.currentSlot, s.currentSlot)
  }

  /** A slot at most one ahead of the source's in its epoch; older epochs are dead. */
  predicate AtMostNext(slot: Slot, s: Slot) {
    SlotLe(slot, Slot(s.epoch, s.generation + 1))
  }

  predicate OpOk(db: Db, id: nat)
    requires id < |db.ops|
  {
    var o := db.ops[id];
    && o.source < |db.sources|
    && AuthorityLe(o.authority, db.sources[o.source].authority)
    && (MetricPoll(o.kind) && o.slot.Some? ==> AtMostNext(o.slot.value, SlotOf(db.sources[o.source], o.kind)))
    && (o.state == Running ==> o.token.Some?)
    && (o.state == Pending ==> o.token == None)
    && (o.token.Some? ==> o.token.value < |db.claims| && db.claims[o.token.value].op == id)
    && (o.state == Running && o.kind == Problem ==> o.slot == db.claims[o.token.value].slot)
  }

  predicate ClaimOk(db: Db, t: nat)
    requires t < |db.claims|
  {
    var c := db.claims[t];
    && c.op < |db.ops|
    && c.source < |db.sources|
    && c.source == db.ops[c.op].source
    && c.kind == db.ops[c.op].kind
    && c.authority == db.ops[c.op].authority
    && (MetricPoll(c.kind) ==> c.slot.Some? && c.slot == db.ops[c.op].slot)
    && (c.kind == Problem ==> c.slot.Some? && SlotLe(c.slot.value, db.sources[c.source].problemSlot))
  }

  predicate ProblemClaimsOrdered(claims: seq<Claim>) {
    forall t, u :: 0 <= t < u < |claims| && claims[t].kind == Problem && claims[u].kind == Problem
                   && claims[t].source == claims[u].source && claims[t].slot.Some? && claims[u].slot.Some?
      ==> SlotLt(claims[t].slot.value, claims[u].slot.value)
  }

  /** The token holds no running operation: presenting it changes nothing. */
  predicate Dead(db: Db, token: nat) {
    token < |db.claims| ==>
      db.claims[token].op < |db.ops| ==>
      !(db.ops[db.claims[token].op].state == Running && db.ops[db.claims[token].op].token == Some(token))
  }

  predicate AcceptedOk(db: Db, a: Acceptance) {
    && a.token < |db.claims|
    && Dead(db, a.token)
    && a == Acceptance(a.token, db.claims[a.token].source, db.claims[a.token].kind, db.claims[a.token].slot)
    && (Polled(a.kind) ==>
          a.slot.Some? && a.source < |db.sources| && SlotLe(a.slot.value, SlotOf(db.sources[a.source], a.kind)))
  }

  predicate SameStream(a: Acceptance, b: Acceptance) {
    a.source == b.source && a.kind == b.kind && Polled(a.kind) && a.slot.Some? && b.slot.Some?
  }

  /** No token is accepted twice, and the accepted slots of one source and poll kind
      strictly increase in commit order. */
  predicate AcceptedOrdered(accepted: seq<Acceptance>) {
    forall i, j :: 0 <= i < j < |accepted| ==>
      && accepted[i].token != accepted[j].token
      && (SameStream(accepted[i], accepted[j]) ==> SlotLt(accepted[i].slot.value, accepted[j].slot.value))
  }

  ghost predicate Inv(db: Db) {
    && (forall i :: 0 <= i < |db.fetched| ==> ReadOk(db, db.fetched[i]))
    && (forall i :: 0 <= i < |db.ops| ==> OpOk(db, i))
    && (forall t :: 0 <= t < |db.claims| ==> ClaimOk(db, t))
    && ProblemClaimsOrdered(db.claims)
    && (forall i :: 0 <= i < |db.accepted| ==> AcceptedOk(db, db.accepted[i]))
    && AcceptedOrdered(db.accepted)
  }
}
