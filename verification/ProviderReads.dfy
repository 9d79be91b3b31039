/**
 The provider readers composed with the provider simulator: a read asks for one row more
 than its bound, so an over-long answer is provable and completeness is never guessed.
 */
module ProviderReads {
  import opened Common
  import A = ProblemAborts
  import P = ProblemState

  datatype ProviderProblem = ProviderProblem(
    event: nat, trigger: nat, source: nat, object_: nat, groups: set<nat>, recoveryEvent: nat, recoveryClock: int)

  datatype ProviderHost = ProviderHost(host: nat, groups: set<nat>)

  datatype ProviderItem = ProviderItem(item: nat, host: nat)

  /* ---------- the simulator ---------- */

  function Filter<T(!new)>(f: T -> bool, s: seq<T>): (r: seq<T>)
    ensures |r| <= |s|
    ensures forall x :: x in r <==> x in s && f(x)
  {
    if s == [] then [] else (if f(s[0]) then [s[0]] else []) + Filter(f, s[1..])
  }

  /** The first `n` rows of an answer. */
  function Limit<T(!new)>(s: seq<T>, n: nat): (r: seq<T>)
    ensures |r| <= n && forall x :: x in r ==> x in s
  {
    if |s| <= n then s else s[..n]
  }

  /** Asking for one row too many proves truncation: the answer fits the bound exactly when
      everything does, and then the first page is everything. */
  lemma OneMoreProvesTruncation<T(!new)>(all: seq<T>, bound: nat)
    ensures |Limit(all, bound + 1)| <= bound <==> |all| <= bound
    ensures Limit(Limit(all, bound + 1), bound) == Limit(all, bound)
    ensures |all| <= bound ==> Limit(all, bound) == all
  {
  }

  predicate Sorted(s: seq<ProviderProblem>) {
    forall i, j :: 0 <= i < j < |s| ==> s[i].event <= s[j].event
  }

  function Insert(p: ProviderProblem, s: seq<ProviderProblem>): (r: seq<ProviderProblem>)
    requires Sorted(s)
    ensures Sorted(r) && |r| == |s| + 1
    ensures forall x :: x in r <==> x == p || x in s
  {
    if s == [] || p.event <= s[0].event then [p] + s
    else
      var t := Insert(p, s[1..]);
      assert forall i :: 0 <= i < |t| ==> t[i] in t;
      [s[0]] + t
  }

  function Sort(s: seq<ProviderProblem>): (r: seq<ProviderProblem>)
    ensures Sorted(r) && |r| == |s|
    ensures forall x :: x in r <==> x in s
  {
    if s == [] then [] else Insert(s[0], Sort(s[1..]))
  }

  /** No group named means no restriction. */
  predicate Visible(groups: set<nat>, scope: set<nat>) { scope == {} || exists g :: g in groups && g in scope }

  /** The trigger problems of the host groups asked for.  The simulator answers those of every
      group, as for an empty scope. */
  function TriggerProblems(problems: seq<ProviderProblem>, scope: set<nat>): seq<ProviderProblem> {
    Filter((p: ProviderProblem) => p.source == 0 && p.object_ == 0 && Visible(p.groups, scope), problems)
  }

  function OfEvents(problems: seq<ProviderProblem>, events: set<nat>): seq<ProviderProblem> {
    Filter((p: ProviderProblem) => p.event in events, problems)
  }

  /** problem.get as the reader of active problems asks it: filters, then sort, then limit. */
  function ActiveProblemGet(problems: seq<ProviderProblem>, scope: set<nat>, limit: nat): seq<ProviderProblem> {
    Limit(Sort(TriggerProblems(problems, scope)), limit)
  }

  /** .. and as the reader of recovery evidence asks it. */
  function RecoveryGet(problems: seq<ProviderProblem>, events: set<nat>, limit: nat): seq<ProviderProblem> {
    Limit(OfEvents(problems, events), limit)
  }

  function HostGet(hosts: seq<ProviderHost>, groups: set<nat>, limit: nat): seq<ProviderHost> {
    Limit(Filter((h: ProviderHost) => Visible(h.groups, groups), hosts), limit)
  }

  predicate HostInGroups(hosts: seq<ProviderHost>, host: nat, groups: set<nat>) {
    groups == {} || exists i :: 0 <= i < |hosts| && hosts[i].host == host && Visible(hosts[i].groups, groups)
  }

  function ItemGet(items: seq<ProviderItem>, hosts: seq<ProviderHost>, groups: set<nat>, limit: nat)
    : seq<ProviderItem>
  {
    Limit(Filter((i: ProviderItem) => HostInGroups(hosts, i.host, groups), items), limit)
  }

  /* ---------- the readers ---------- */

  /** A trigger problem the provider itself still reports as active. */
  predicate Unrecovered(p: ProviderProblem) { p.recoveryEvent == 0 }

  predicate ActiveAtProvider(p: ProviderProblem) { p.source == 0 && p.object_ == 0 && p.recoveryEvent == 0 }

  /** The active problems on the first page of the provider's trigger problems. */
  function ActivePage(problems: seq<ProviderProblem>, scope: set<nat>, bound: nat): (rows: seq<ProviderProblem>)
    ensures |rows| <= bound
    ensures forall p :: p in rows ==> p in problems && ActiveAtProvider(p) && Visible(p.groups, scope)
    ensures |TriggerProblems(problems, scope)| <= bound ==>
              forall p :: p in problems && ActiveAtProvider(p) && Visible(p.groups, scope) ==> p in rows
  {
    Filter(Unrecovered, Limit(Sort(TriggerProblems(problems, scope)), bound))
  }

  lemma SortedPage(all: seq<ProviderProblem>, bound: nat, p: ProviderProblem, q: ProviderProblem)
    requires Sorted(all) && p in Limit(all, bound) && q in all && q !in Limit(all, bound)
    ensures p.event <= q.event && |all| > bound
  {
    var i :| 0 <= i < |Limit(all, bound)| && Limit(all, bound)[i] == p;
    var j :| 0 <= j < |all| && all[j] == q;
    if j < |Limit(all, bound)| { assert Limit(all, bound)[j] == q; }
  }

  lemma FilterMember(s: seq<ProviderProblem>, p: ProviderProblem)
    ensures p in Filter(Unrecovered, s) <==> p in s && p.recoveryEvent == 0
  {
  }

  /** What a cut-off read leaves out comes no earlier than anything it returns. */
  lemma CutReadsKeepTheEarliest(
      problems: seq<ProviderProblem>, scope: set<nat>, bound: nat, p: ProviderProblem, q: ProviderProblem)
    requires p in ActivePage(problems, scope, bound) && q !in ActivePage(problems, scope, bound)
    requires q in problems && ActiveAtProvider(q) && (scope == {} || q.groups * scope != {})
    ensures p.event <= q.event && !FitsBound(problems, scope, bound)
  {
    var all := Sort(TriggerProblems(problems, scope));
    SharesIsVisible(q.groups, scope);
    assert q in TriggerProblems(problems, scope);
    FilterMember(Limit(all, bound), p);
    FilterMember(Limit(all, bound), q);
    SortedPage(all, bound, p, q);
  }

  lemma SharesIsVisible(groups: set<nat>, scope: set<nat>)
    ensures Visible(groups, scope) <==> scope == {} || groups * scope != {}
  {
    if groups * scope != {} {
      var g :| g in groups * scope;
      assert g in groups && g in scope;
    }
    if g :| g in groups && g in scope {
      assert g in groups * scope;
    }
  }

  predicate FitsBound(problems: seq<ProviderProblem>, scope: set<nat>, bound: nat) {
    |TriggerProblems(problems, scope)| <= bound
  }

  /** read_active_problems: complete exactly when the provider holds no more trigger problems
      of the scope than the bound, and then the rows are exactly its active ones. */
  method ReadActiveProblems(problems: seq<ProviderProblem>, scope: set<nat>, maxRows: nat)
    returns (rows: seq<ProviderProblem>, complete: bool)
    ensures complete <==> FitsBound(problems, scope, maxRows)
    ensures rows == ActivePage(problems, scope, maxRows)
    ensures forall p :: p in rows ==> p in problems && ActiveAtProvider(p) && Visible(p.groups, scope)
    ensures complete ==> forall p :: p in problems && ActiveAtProvider(p) && Visible(p.groups, scope) ==> p in rows
    ensures |rows| <= maxRows
  {
    var result := ActiveProblemGet(problems, scope, maxRows + 1);
    OneMoreProvesTruncation(Sort(TriggerProblems(problems, scope)), maxRows);
    complete := |result| <= maxRows;
    rows := DropRecovered(Limit(result, maxRows));
    assert rows == ActivePage(problems, scope, maxRows);
  }

  /** The reader's row loop: recovered rows are skipped. */
  method DropRecovered(page: seq<ProviderProblem>) returns (rows: seq<ProviderProblem>)
    ensures rows == Filter(Unrecovered, page)
  {
    rows := [];
    for i := 0 to |page|
      invariant rows + Filter(Unrecovered, page[i..]) == Filter(Unrecovered, page)
    {
      FilterStep(page[i..]);
      assert page[i..][1..] == page[i + 1..];
      if Unrecovered(page[i]) {
        rows := rows + [page[i]];
      }
    }
  }

  lemma FilterStep(s: seq<ProviderProblem>)
    requires s != []
    ensures Filter(Unrecovered, s) == (if Unrecovered(s[0]) then [s[0]] else []) + Filter(Unrecovered, s[1..])
  {
  }

  /** The provider itself reports the event as recovered, at that clock. */
  predicate RecoveredAtProvider(problems: seq<ProviderProblem>, r: P.Recovery) {
    exists i :: 0 <= i < |problems| && problems[i].event == r.event && problems[i].recoveryEvent == r.recoveryEvent
                && problems[i].recoveryClock == r.clock && r.recoveryEvent != 0
  }

  function EvidenceOf(p: ProviderProblem): P.Recovery { P.Recovery(p.event, p.recoveryEvent, p.recoveryClock) }

  /** read_recovery_events: evidence only for known events the provider reports recovered, and
      for all of them when the known events fit the bound. */
  method ReadRecoveryEvents(problems: seq<ProviderProblem>, known: set<nat>, maxRows: nat)
    returns (rows: seq<P.Recovery>)
    ensures |rows| <= maxRows
    ensures forall j :: 0 <= j < |rows| ==> rows[j].event in known && RecoveredAtProvider(problems, rows[j])
    ensures |OfEvents(problems, known)| <= maxRows ==>
              forall p :: p in problems && p.event in known && p.recoveryEvent != 0 ==> EvidenceOf(p) in rows
  {
    rows := [];
    if known == {} { return; }
    var result := RecoveryGet(problems, known, maxRows);
    for i := 0 to |result|
      invariant |rows| <= i
      invariant forall j :: 0 <= j < |rows| ==> rows[j].event in known && RecoveredAtProvider(problems, rows[j])
      invariant forall j :: 0 <= j < i && result[j].recoveryEvent != 0 ==> EvidenceOf(result[j]) in rows
    {
      if result[i].recoveryEvent != 0 {
        assert result[i] in result;
        assert result[i] in problems;
        rows := rows + [EvidenceOf(result[i])];
      }
    }
  }

  /** host_get and item_get share the same contract: complete exactly when nothing was cut
      off, and then the snapshot is exactly what the provider holds for the groups. */
  method ReadHosts(hosts: seq<ProviderHost>, groups: set<nat>, maxHosts: nat)
    returns (snapshot: seq<ProviderHost>, complete: bool)
    ensures |snapshot| <= maxHosts
    ensures complete <==> |HostGet(hosts, groups, |hosts|)| <= maxHosts
    ensures forall h :: h in snapshot ==> h in hosts && Visible(h.groups, groups)
    ensures complete ==> forall h :: h in hosts && Visible(h.groups, groups) ==> h in snapshot
  {
    var result := HostGet(hosts, groups, maxHosts + 1);
    complete := |result| <= maxHosts;
    snapshot := Limit(result, maxHosts);
    OneMoreProvesTruncation(Filter((h: ProviderHost) => Visible(h.groups, groups), hosts), maxHosts);
  }

  method ReadItems(items: seq<ProviderItem>, hosts: seq<ProviderHost>, groups: set<nat>, maxItems: nat)
    returns (snapshot: seq<ProviderItem>, complete: bool)
    ensures |snapshot| <= maxItems
    ensures complete <==> |ItemGet(items, hosts, groups, |items|)| <= maxItems
    ensures forall i :: i in snapshot ==> i in items && HostInGroups(hosts, i.host, groups)
    ensures complete ==> forall i :: i in items && HostInGroups(hosts, i.host, groups) ==> i in snapshot
  {
    var result := ItemGet(items, hosts, groups, maxItems + 1);
    complete := |result| <= maxItems;
    snapshot := Limit(result, maxItems);
  }

  /* ---------- composition with the problem projection ---------- */

  function EventsOf(rows: seq<ProviderProblem>): set<nat> { set j | 0 <= j < |rows| :: rows[j].event }

  /** What the collector passes on: exactly the rows of the read, and its completeness flag. */
  predicate PassesThrough(problems: seq<ProviderProblem>, scope: set<nat>, bound: nat, x: P.Completion) {
    && x.complete == FitsBound(problems, scope, bound)
    && P.Seen(x) == EventsOf(ActivePage(problems, scope, bound))
  }

  predicate UniqueEvents(problems: seq<ProviderProblem>) {
    forall i, j :: 0 <= i < j < |problems| ==> problems[i].event != problems[j].event
  }

  lemma ActiveIsSeen(problems: seq<ProviderProblem>, scope: set<nat>, bound: nat, x: P.Completion, p: ProviderProblem)
    requires PassesThrough(problems, scope, bound, x) && FitsBound(problems, scope, bound)
    requires p in problems && ActiveAtProvider(p) && Visible(p.groups, scope)
    ensures p.event in P.Seen(x)
  {
    var rows := ActivePage(problems, scope, bound);
    assert p in rows;
    var j :| 0 <= j < |rows| && rows[j] == p;
  }

  lemma SeenIsVisible(problems: seq<ProviderProblem>, rows: seq<ProviderProblem>, scope: set<nat>, p: ProviderProblem)
    requires UniqueEvents(problems) && p in problems && p.event in EventsOf(rows)
    requires forall r :: r in rows ==> r in problems && Visible(r.groups, scope)
    ensures Visible(p.groups, scope)
  {
    var j :| 0 <= j < |rows| && rows[j].event == p.event;
    assert rows[j] in rows && rows[j] in problems;
    var a :| 0 <= a < |problems| && problems[a] == rows[j];
    var b :| 0 <= b < |problems| && problems[b] == p;
    assert a == b;
  }

  lemma ActiveHasNoEvidence(problems: seq<ProviderProblem>, x: P.Completion, p: ProviderProblem)
    requires forall j :: 0 <= j < |x.recoveries| ==> RecoveredAtProvider(problems, x.recoveries[j])
    requires UniqueEvents(problems)
    requires p in problems && ActiveAtProvider(p)
    ensures p.event !in P.Recovered(x)
  {
    if p.event in P.Recovered(x) {
      var j := EvidenceFor(x.recoveries, p.event);
      assert false;
    }
  }

  /** No problem of the scope that is still active at the provider is ever resolved by
      omission: whatever the bound of the read, after a committed completion the problem is
      active, or recovery evidence names it. */
  lemma ActiveAtProviderIsNotOmitted(
      problems: seq<ProviderProblem>, scope: set<nat>, bound: nat,
      db: P.Db, x: P.Completion, k: P.Key, p: ProviderProblem)
    requires PassesThrough(problems, scope, bound, x)
    requires P.Bound(db) && x.succeeded && P.Complete(db, x).Some?
    requires P.InScope(x.claim, k) && P.StateAt(db, k) == Some(P.Active)
    requires p in problems && p.event == k.event && ActiveAtProvider(p) && Visible(p.groups, scope)
    ensures P.StateAt(P.Complete(db, x).value, k) == Some(P.Active) || k.event in P.Recovered(x)
  {
    P.CompletionEffect(db, x, k);
    if x.complete { ActiveIsSeen(problems, scope, bound, x, p); }
  }

  /** With recovery evidence read from the same provider state, event ids being unique there,
      a problem active at the provider stays active here if and only if it is in the scope of
      the read or the read was cut off: a problem whose host left the configured groups is
      resolved while the provider still reports it. */
  lemma ActiveAtProviderStaysActiveIffInScope(
      problems: seq<ProviderProblem>, scope: set<nat>, bound: nat,
      db: P.Db, x: P.Completion, k: P.Key, p: ProviderProblem)
    requires PassesThrough(problems, scope, bound, x)
    requires forall j :: 0 <= j < |x.recoveries| ==> RecoveredAtProvider(problems, x.recoveries[j])
    requires UniqueEvents(problems)
    requires P.Bound(db) && x.succeeded && P.Complete(db, x).Some?
    requires P.InScope(x.claim, k) && P.StateAt(db, k) == Some(P.Active)
    requires p in problems && p.event == k.event && ActiveAtProvider(p)
    ensures P.StateAt(P.Complete(db, x).value, k) == Some(P.Active)
       <==> Visible(p.groups, scope) || !FitsBound(problems, scope, bound)
  {
    P.CompletionEffect(db, x, k);
    ActiveHasNoEvidence(problems, x, p);
    if x.complete && Visible(p.groups, scope) { ActiveIsSeen(problems, scope, bound, x, p); }
    if k.event in P.Seen(x) { SeenIsVisible(problems, ActivePage(problems, scope, bound), scope, p); }
  }

  /** A concrete one: event 7 is open here and active at the provider, in group 2; the read
      asks for group 1. */
  lemma LeavingTheGroupsResolves()
    ensures var there := ProviderProblem(7, 70, 0, 0, {2}, 0, 0);
      var k := P.KeyOf(A.FirstClaim, 7);
      var db := P.Step(P.Empty, A.Opens);
      && ActiveAtProvider(there) && PassesThrough([there], {1}, 10, A.Omits)
      && P.StateAt(db, k) == Some(P.Active)
      && P.StateAt(P.Step(db, A.Omits), k) == Some(P.Resolved)
  {
    var there := ProviderProblem(7, 70, 0, 0, {2}, 0, 0);
    assert !Visible(there.groups, {1});
    assert TriggerProblems([there], {1}) == [] by {
      assert forall p :: p in TriggerProblems([there], {1}) ==> p in [there];
    }
    assert ActivePage([there], {1}, 10) == [];
    A.OpenThenOmitted();
  }

  lemma {:induction false} EvidenceFor(recs: seq<P.Recovery>, event: nat) returns (j: nat)
    requires event in P.EventsOf(recs)
    ensures j < |recs| && recs[j].event == event
  {
    if recs[0].event == event {
      j := 0;
    } else {
      var i := EvidenceFor(recs[1..], event);
      j := i + 1;
    }
  }
}
