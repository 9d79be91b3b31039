/**
 The chain of history operations over one window: each claim reads one page of the eligible
 items after its cursor, and a successful full page with items remaining enqueues the next
 operation.  Item references are numbers in the database's order; `items` lists the eligible
 ones ascending, and 0 is the empty cursor an enqueued window starts from.
 */
module HistoryChain {
  import opened Common

  /** The eligible items: no reference twice, none empty. */
  predicate Listing(items: seq<nat>) {
    && (forall i, j :: 0 <= i < j < |items| ==> items[i] < items[j])
    && (forall i :: 0 <= i < |items| ==> items[i] > 0)
  }

  datatype OpState = Pending | Running | Succeeded | Failed

  /** `targets` is what the current claim read; empty unless running. */
  datatype Op = Op(cursor: nat, state: OpState, targets: seq<nat>)

  /** `pages` logs the targets of the successful non-empty completions. */
  datatype Db = Db(ops: seq<Op>, pages: seq<seq<nat>>)

  const Initial := Db([Op(0, Pending, [])], [])

  /** WHERE ref > cursor, in order */
  function After(items: seq<nat>, cursor: nat): seq<nat> {
    if items == [] then []
    else if items[0] > cursor then [items[0]] + After(items[1..], cursor)
    else After(items[1..], cursor)
  }

  /** The leading `size` of a list. */
  function Lead(rest: seq<nat>, size: nat): seq<nat> { if |rest| <= size then rest else rest[..size] }

  /** .. LIMIT size */
  function Page(items: seq<nat>, cursor: nat, size: nat): seq<nat> {
    Lead(After(items, cursor), size)
  }

  function Claim(db: Db, i: nat, items: seq<nat>, size: nat): Db {
    if i < |db.ops| && db.ops[i].state == Pending then
      var page := Page(items, db.ops[i].cursor, size);
      if page == [] then db.(ops := db.ops[i := db.ops[i].(state := Succeeded)])
      else db.(ops := db.ops[i := db.ops[i].(state := Running, targets := page)])
    else db
  }

  function Greatest(s: seq<nat>): nat {
    if s == [] then 0
    else
      var m := Greatest(s[1..]);
      if s[0] > m then s[0] else m
  }

  function Complete(db: Db, i: nat, ok: bool, items: seq<nat>, size: nat): Db {
    if i < |db.ops| && db.ops[i].state == Running then
      var targets := db.ops[i].targets;
      var closed := db.ops[i := db.ops[i].(state := if ok then Succeeded else Failed, targets := [])];
      if !ok then db.(ops := closed)
      else
        var next := Greatest(targets);
        Db(if |targets| == size && After(items, next) != [] then closed + [Op(next, Pending, [])] else closed,
           db.pages + [targets])
    else db
  }

  /** A reaped or requeued operation is claimed again from the same cursor. */
  function Retry(db: Db, i: nat): Db {
    if i < |db.ops| && (db.ops[i].state == Running || db.ops[i].state == Failed)
    then db.(ops := db.ops[i := db.ops[i].(state := Pending, targets := [])])
    else db
  }

  datatype Event = Claimed(op: nat) | Completed(op: nat, ok: bool) | Retried(op: nat)

  function Step(db: Db, e: Event, items: seq<nat>, size: nat): Db {
    match e
    case Claimed(op) => Claim(db, op, items, size)
    case Completed(op, ok) => Complete(db, op, ok, items, size)
    case Retried(op) => Retry(db, op)
  }

  function Run(db: Db, es: seq<Event>, items: seq<nat>, size: nat): Db
    decreases |es|
  {
    if es == [] then db else Run(Step(db, es[0], items, size), es[1..], items, size)
  }

  /** The pages of at most `size` that `n` items fill. */
  function PagesNeeded(n: nat, size: nat): nat
    requires size > 0
  {
    if n == 0 then 0
    else if n <= size then 1
    else 1 + PagesNeeded(n - size, size)
  }

  /** .. which is n / size rounded up. */
  lemma {:induction false} PagesNeededRoundsUp(n: nat, size: nat)
    requires size > 0
    ensures var p := PagesNeeded(n, size);
      p * size >= n && (if n == 0 then p == 0 else p > 0 && (p - 1) * size < n)
  {
    if n > size {
      PagesNeededRoundsUp(n - size, size);
      var q := PagesNeeded(n - size, size);
      assert (q + 1) * size == q * size + size;
      assert q * size == (q - 1) * size + size;
    }
  }

  /** Nothing is left to do. */
  predicate Finished(db: Db) { forall i :: 0 <= i < |db.ops| ==> db.ops[i].state == Succeeded }

  /** At most the last operation is unfinished. */
  predicate OneOpen(db: Db) { forall i :: 0 <= i < |db.ops| - 1 ==> db.ops[i].state == Succeeded }

  /* ---------- the invariant ---------- */

  /** The pages so far are the leading items in order; the last operation continues there. */
  predicate Inv(db: Db, items: seq<nat>, size: nat)
    requires size > 0
  {
    var seen := Concat(db.pages);
    && db.ops != []
    && OneOpen(db)
    && var last := db.ops[|db.ops| - 1];
    && seen <= items
    && |db.pages| + PagesNeeded(|items| - |seen|, size) == PagesNeeded(|items|, size)
    && (last.state == Succeeded ==> seen == items)
    && (last.state != Succeeded ==> last.cursor == if seen == [] then 0 else seen[|seen| - 1])
    && (last.state == Running ==> last.targets == Page(items, last.cursor, size) && last.targets != [])
  }

  /** What lies after the p-th item is the rest of the list. */
  lemma {:induction false} AfterIsTheRest(items: seq<nat>, p: nat, cursor: nat)
    requires Listing(items) && p <= |items|
    requires forall i :: 0 <= i < p ==> items[i] <= cursor
    requires forall i :: p <= i < |items| ==> cursor < items[i]
    ensures After(items, cursor) == items[p..]
    decreases |items|
  {
    if items != [] {
      AfterIsTheRest(items[1..], if p == 0 then 0 else p - 1, cursor);
      if p > 0 { assert items[1..][p - 1..] == items[p..]; }
    }
  }

  lemma AfterSeen(items: seq<nat>, seen: seq<nat>)
    requires Listing(items) && seen <= items
    ensures After(items, if seen == [] then 0 else seen[|seen| - 1]) == items[|seen|..]
  {
    AfterIsTheRest(items, |seen|, if seen == [] then 0 else seen[|seen| - 1]);
  }

  lemma {:induction false} GreatestIsLast(s: seq<nat>)
    requires s != [] && forall i, j :: 0 <= i < j < |s| ==> s[i] < s[j]
    ensures Greatest(s) == s[|s| - 1]
  {
    if |s| > 1 { GreatestIsLast(s[1..]); }
  }

  lemma LeadPages(n: nat, t: nat, size: nat)
    requires size > 0 && n > 0 && t == if n <= size then n else size
    ensures PagesNeeded(n, size) == 1 + PagesNeeded(n - t, size)
  {
  }

  lemma LeadContinues(items: seq<nat>, seen: seq<nat>, targets: seq<nat>, size: nat)
    requires seen <= items && targets == Lead(items[|seen|..], size)
    ensures seen + targets <= items
    ensures |targets| < size ==> seen + targets == items
    ensures |targets| == if |items| - |seen| <= size then |items| - |seen| else size
    ensures forall i :: 0 <= i < |targets| ==> targets[i] == items[|seen| + i]
  {
  }

  /** A page read after `seen` continues it, and its greatest reference is its last. */
  lemma PageContinues(items: seq<nat>, seen: seq<nat>, targets: seq<nat>, size: nat)
    requires size > 0 && Listing(items) && seen <= items && targets != []
    requires targets == Page(items, if seen == [] then 0 else seen[|seen| - 1], size)
    ensures seen + targets <= items
    ensures Greatest(targets) == targets[|targets| - 1]
    ensures After(items, Greatest(targets)) == items[|seen + targets|..]
    ensures |targets| < size ==> seen + targets == items
    ensures 1 + PagesNeeded(|items| - |seen + targets|, size) == PagesNeeded(|items| - |seen|, size)
  {
    AfterSeen(items, seen);
    LeadContinues(items, seen, targets, size);
    LeadPages(|items| - |seen|, |targets|, size);
    GreatestIsLast(targets);
    AfterSeen(items, seen + targets);
  }

  lemma CompleteInv(db: Db, i: nat, items: seq<nat>, size: nat)
    requires size > 0 && Listing(items) && Inv(db, items, size)
    requires i < |db.ops| && db.ops[i].state == Running
    ensures Inv(Complete(db, i, true, items, size), items, size)
  {
    var seen, targets := Concat(db.pages), db.ops[i].targets;
    var db' := Complete(db, i, true, items, size);
    PageContinues(items, seen, targets, size);
    assert db'.pages[..|db.pages|] == db.pages;
    assert Concat(db'.pages) == seen + targets;
    assert OneOpen(db');
  }

  lemma ClaimInv(db: Db, i: nat, items: seq<nat>, size: nat)
    requires size > 0 && Listing(items) && Inv(db, items, size)
    ensures Inv(Claim(db, i, items, size), items, size)
  {
    AfterSeen(items, Concat(db.pages));
  }

  lemma RetryInv(db: Db, i: nat, items: seq<nat>, size: nat)
    requires size > 0 && Inv(db, items, size)
    ensures Inv(Retry(db, i), items, size)
  {
  }

  lemma StepInv(db: Db, e: Event, items: seq<nat>, size: nat)
    requires size > 0 && Listing(items) && Inv(db, items, size)
    ensures Inv(Step(db, e, items, size), items, size)
  {
    match e
    case Claimed(i) => ClaimInv(db, i, items, size);
    case Completed(i, ok) =>
      if ok && i < |db.ops| && db.ops[i].state == Running { CompleteInv(db, i, items, size); }
    case Retried(i) => RetryInv(db, i, items, size);
  }

  lemma {:induction false} RunInv(db: Db, es: seq<Event>, items: seq<nat>, size: nat)
    requires size > 0 && Listing(items) && Inv(db, items, size)
    ensures Inv(Run(db, es, items, size), items, size)
    decreases |es|
  {
    if es != [] {
      StepInv(db, es[0], items, size);
      RunInv(Step(db, es[0], items, size), es[1..], items, size);
    }
  }

  /** However claims, failures, crashes and retries interleave: the successful pages so far are
      a leading part of the eligible items in order, only the last operation may be unfinished,
      and no more pages succeed than the items need. */
  lemma PagesAreALeadingPart(es: seq<Event>, items: seq<nat>, size: nat)
    requires size > 0 && Listing(items)
    ensures var db := Run(Initial, es, items, size);
      && Concat(db.pages) <= items
      && OneOpen(db)
      && |db.pages| <= PagesNeeded(|items|, size)
  {
    RunInv(Initial, es, items, size);
  }

  /** Once no operation is left to do, every eligible item was visited exactly once, in
      ascending order, by exactly ceil(n / size) successful pages. */
  lemma FinishedChainVisitsEverything(es: seq<Event>, items: seq<nat>, size: nat)
    requires size > 0 && Listing(items) && Finished(Run(Initial, es, items, size))
    ensures Concat(Run(Initial, es, items, size).pages) == items
    ensures |Run(Initial, es, items, size).pages| == PagesNeeded(|items|, size)
  {
    RunInv(Initial, es, items, size);
  }

  /** No operation without a page of its own, except the one still to come and the empty window's
      only one; and while one is to come there are items left. */
  predicate Frugal(db: Db, items: seq<nat>) {
    && db.ops != []
    && var open := db.ops[|db.ops| - 1].state != Succeeded;
    && |db.ops| == |db.pages| + (if open || items == [] then 1 else 0)
    && (open ==> items == [] || |Concat(db.pages)| < |items|)
  }

  lemma ClaimFrugal(db: Db, i: nat, items: seq<nat>, size: nat)
    requires size > 0 && Listing(items) && Inv(db, items, size) && Frugal(db, items)
    ensures Frugal(Claim(db, i, items, size), items)
  {
    AfterSeen(items, Concat(db.pages));
  }

  lemma CompleteFrugal(db: Db, i: nat, items: seq<nat>, size: nat)
    requires size > 0 && Listing(items) && Inv(db, items, size) && Frugal(db, items)
    requires i < |db.ops| && db.ops[i].state == Running
    ensures Frugal(Complete(db, i, true, items, size), items)
  {
    var seen, targets, db' := Concat(db.pages), db.ops[i].targets, Complete(db, i, true, items, size);
    PageContinues(items, seen, targets, size);
    assert db'.pages[..|db.pages|] == db.pages;
    assert Concat(db'.pages) == seen + targets;
    assert i == |db.ops| - 1;
    if After(items, Greatest(targets)) == [] { assert |seen + targets| == |items|; }
  }

  lemma StepFrugal(db: Db, e: Event, items: seq<nat>, size: nat)
    requires size > 0 && Listing(items) && Inv(db, items, size) && Frugal(db, items)
    ensures Frugal(Step(db, e, items, size), items)
  {
    match e
    case Claimed(i) => ClaimFrugal(db, i, items, size);
    case Completed(i, ok) =>
      if ok && i < |db.ops| && db.ops[i].state == Running { CompleteFrugal(db, i, items, size); }
    case Retried(i) =>
  }

  lemma {:induction false} RunFrugal(db: Db, es: seq<Event>, items: seq<nat>, size: nat)
    requires size > 0 && Listing(items) && Inv(db, items, size) && Frugal(db, items)
    ensures Frugal(Run(db, es, items, size), items)
    decreases |es|
  {
    if es != [] {
      StepInv(db, es[0], items, size);
      StepFrugal(db, es[0], items, size);
      RunFrugal(Step(db, es[0], items, size), es[1..], items, size);
    }
  }

  /** However often operations fail and are retried, a window never has more operations than
      pages it needs, and one if it needs none. */
  lemma OperationsAreBounded(es: seq<Event>, items: seq<nat>, size: nat)
    requires size > 0 && Listing(items)
    ensures var db := Run(Initial, es, items, size);
      && |db.ops| <= (if items == [] then 1 else PagesNeeded(|items|, size))
      && |db.ops| == |db.pages| + (if Finished(db) && items != [] then 0 else 1)
  {
    var db := Run(Initial, es, items, size);
    RunInv(Initial, es, items, size);
    RunFrugal(Initial, es, items, size);
    if db.ops[|db.ops| - 1].state == Succeeded { assert Finished(db); }
  }

  /** A failed attempt, and its retry, leave the operation to read from the same cursor and
      nothing else changed; events for an operation in another state change nothing. */
  lemma FailureKeepsTheCursor(db: Db, i: nat, items: seq<nat>, size: nat)
    requires i < |db.ops|
    ensures var o := db.ops[i];
      && Step(db, Completed(i, false), items, size)
         == (if o.state == Running then db.(ops := db.ops[i := Op(o.cursor, Failed, [])]) else db)
      && Step(db, Retried(i), items, size)
         == (if o.state in {Running, Failed} then db.(ops := db.ops[i := Op(o.cursor, Pending, [])]) else db)
      && (o.state != Running ==> Step(db, Completed(i, true), items, size) == db)
      && (o.state != Pending ==> Step(db, Claimed(i), items, size) == db)
  {
  }

  /** The rounds of one undisturbed attempt at the last operation. */
  function Attempt(i: nat): seq<Event> { [Retried(i), Claimed(i), Completed(i, true)] }

  lemma RunAttempt(db: Db, i: nat, items: seq<nat>, size: nat)
    ensures Run(db, Attempt(i), items, size)
         == Step(Step(Step(db, Retried(i), items, size), Claimed(i), items, size), Completed(i, true), items, size)
  {
    var a := Step(db, Retried(i), items, size);
    var b := Step(a, Claimed(i), items, size);
    assert Attempt(i)[1..] == [Claimed(i), Completed(i, true)];
    assert [Claimed(i), Completed(i, true)][1..] == [Completed(i, true)];
    assert [Completed(i, true)][1..] == [];
    assert Run(b, [Completed(i, true)], items, size) == Step(b, Completed(i, true), items, size);
    assert Run(a, [Claimed(i), Completed(i, true)], items, size) == Run(b, [Completed(i, true)], items, size);
  }

  /** An unfinished chain can always move: one undisturbed attempt at its last operation
      finishes it or adds a page. */
  lemma ProgressIsPossible(es: seq<Event>, items: seq<nat>, size: nat)
    requires size > 0 && Listing(items) && !Finished(Run(Initial, es, items, size))
    ensures var db := Run(Initial, es, items, size);
      && db.ops != []
      && var db' := Run(db, Attempt(|db.ops| - 1), items, size);
      Finished(db') || |db'.pages| == |db.pages| + 1
  {
    RunInv(Initial, es, items, size);
    var db := Run(Initial, es, items, size);
    RunAttempt(db, |db.ops| - 1, items, size);
    AttemptMoves(db, items, size);
  }

  lemma AttemptMoves(db: Db, items: seq<nat>, size: nat)
    requires db.ops != [] && OneOpen(db) && !Finished(db)
    ensures var i := |db.ops| - 1;
      var c := Step(Step(Step(db, Retried(i), items, size), Claimed(i), items, size), Completed(i, true), items, size);
      Finished(c) || |c.pages| == |db.pages| + 1
  {
    var i := |db.ops| - 1;
    assert db.ops[i].state != Succeeded;
    assert Step(db, Retried(i), items, size).ops[i].state == Pending;
  }

  /** The two transactions of the repository over the operation table. */
  class Chain {
    const items: seq<nat>
    const size: nat
    var ops: seq<Op>
    ghost var pages: seq<seq<nat>>

    ghost function View(): Db
      reads this
    {
      Db(ops, pages)
    }

    constructor (items: seq<nat>, size: nat)
      ensures View() == Initial && this.items == items && this.size == size
    {
      this.items, this.size, ops, pages := items, size, [Op(0, Pending, [])], [];
    }

    /** claim_metric_history: false when not claimable or when the page was empty. */
    method ClaimOp(i: nat) returns (claimed: bool, targets: seq<nat>)
      modifies this
      ensures View() == Step(old(View()), Claimed(i), items, size)
      ensures claimed ==> i < |ops| && ops[i].state == Running && ops[i].targets == targets != []
    {
      claimed, targets := false, [];
      if i >= |ops| || ops[i].state != Pending { return; }
      targets := Page(items, ops[i].cursor, size);
      claimed := targets != [];
      ops := ops[i := ops[i].(state := if claimed then Running else Succeeded,
                              targets := if claimed then targets else ops[i].targets)];
    }

    /** complete_metric_history: the operation's outcome and the next link of the chain. */
    method CompleteOp(i: nat, ok: bool)
      requires i < |ops| && ops[i].state == Running
      modifies this
      ensures View() == Step(old(View()), Completed(i, ok), items, size)
    {
      var targets := ops[i].targets;
      ops := ops[i := ops[i].(state := if ok then Succeeded else Failed, targets := [])];
      if !ok { return; }
      pages := pages + [targets];
      if |targets| == size {
        var next := Greatest(targets);
        if After(items, next) != [] { ops := ops + [Op(next, Pending, [])]; }
      }
    }
  }
}
