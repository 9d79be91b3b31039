/**
 The problem list read page by page with a keyset cursor: severity first, then newest, then id.
 `rows` is the source's problem table in whatever order the database keeps it.
 */
module ProblemPaging {
  import opened Common
  import P = ProblemState

  function Rank(s: P.Severity): nat {
    match s
    case Critical => 0
    case Degraded => 1
    case Warning => 2
    case Informational => 3
    case Unknown => 4
  }

  /** A problem row with its id. */
  datatype Problem = Problem(id: nat, row: P.Row)

  datatype Cursor = Cursor(rank: nat, openedAt: int, id: nat)

  datatype Page = Page(items: seq<Problem>, next: Option<Cursor>)

  const MAX_LIMIT := 500

  function Clamp(limit: int): (n: nat)
    ensures 0 < n <= MAX_LIMIT
  {
    var low := if limit < 1 then 1 else limit;
    if low > MAX_LIMIT then MAX_LIMIT else low
  }

  function KeyOf(p: Problem): Cursor { Cursor(Rank(p.row.severity), p.row.openedAt, p.id) }

  /** The WHERE clause of the cursor: strictly after it in list order. */
  predicate After(c: Cursor, p: Problem) {
    || Rank(p.row.severity) > c.rank
    || (Rank(p.row.severity) == c.rank && p.row.openedAt < c.openedAt)
    || (Rank(p.row.severity) == c.rank && p.row.openedAt == c.openedAt && p.id > c.id)
  }

  predicate Wanted(p: Problem, activeOnly: bool, cursor: Option<Cursor>) {
    (activeOnly ==> p.row.state == P.Active) && (cursor == None || After(cursor.value, p))
  }

  function Where(rows: seq<Problem>, activeOnly: bool, cursor: Option<Cursor>): seq<Problem> {
    if rows == [] then []
    else (if Wanted(rows[0], activeOnly, cursor) then [rows[0]] else []) + Where(rows[1..], activeOnly, cursor)
  }

  function Insert(p: Problem, ps: seq<Problem>): seq<Problem> {
    if ps == [] || After(KeyOf(p), ps[0]) then [p] + ps else [ps[0]] + Insert(p, ps[1..])
  }

  /** ORDER BY rank, opened_at DESC, problem_id */
  function OrderBy(rows: seq<Problem>): seq<Problem> {
    if rows == [] then [] else Insert(rows[0], OrderBy(rows[1..]))
  }

  /** One row more than the limit is fetched to learn whether there is more. */
  function CutPage(matching: seq<Problem>, n: nat): Page
    requires n > 0
  {
    var fetched := if |matching| <= n + 1 then matching else matching[..n + 1];
    if |fetched| > n then Page(fetched[..n], Some(KeyOf(fetched[n - 1]))) else Page(fetched, None)
  }

  /** list_problems */
  function ListProblems(rows: seq<Problem>, activeOnly: bool, cursor: Option<Cursor>, limit: int): Page {
    CutPage(OrderBy(Where(rows, activeOnly, cursor)), Clamp(limit))
  }

  /* ---------- the list order ---------- */

  /** The primary key of the table. */
  predicate DistinctIds(rows: seq<Problem>) {
    forall i, j :: 0 <= i < j < |rows| ==> rows[i].id != rows[j].id
  }

  predicate InOrder(ps: seq<Problem>) {
    forall i, j :: 0 <= i < j < |ps| ==> After(KeyOf(ps[i]), ps[j])
  }

  lemma {:induction false} InsertAdds(p: Problem, ps: seq<Problem>)
    ensures multiset(Insert(p, ps)) == multiset(ps) + multiset{p}
    ensures forall q :: q in Insert(p, ps) <==> q == p || q in ps
  {
    if ps == [] || After(KeyOf(p), ps[0]) {
    } else {
      InsertAdds(p, ps[1..]);
      assert ps == [ps[0]] + ps[1..];
    }
  }

  lemma {:induction false} InsertOrders(p: Problem, ps: seq<Problem>)
    requires InOrder(ps) && forall i :: 0 <= i < |ps| ==> ps[i].id != p.id
    ensures InOrder(Insert(p, ps))
  {
    if ps == [] || After(KeyOf(p), ps[0]) {
      forall j | 0 <= j < |ps| ensures After(KeyOf(p), ps[j]) {
        if j > 0 { assert After(KeyOf(ps[0]), ps[j]); }
      }
    } else {
      var tail := Insert(p, ps[1..]);
      InsertOrders(p, ps[1..]);
      InsertAdds(p, ps[1..]);
      forall j | 0 <= j < |tail| ensures After(KeyOf(ps[0]), tail[j]) {
        assert tail[j] in tail;
        if tail[j] != p {
          var i :| 0 <= i < |ps| - 1 && ps[1..][i] == tail[j];
          assert ps[i + 1] == tail[j];
        }
      }
    }
  }

  lemma {:induction false} OrderByOrders(rows: seq<Problem>)
    requires DistinctIds(rows)
    ensures InOrder(OrderBy(rows))
    ensures multiset(OrderBy(rows)) == multiset(rows)
    ensures forall q :: q in OrderBy(rows) <==> q in rows
  {
    if rows != [] {
      OrderByOrders(rows[1..]);
      assert rows == [rows[0]] + rows[1..];
      forall i | 0 <= i < |OrderBy(rows[1..])| ensures OrderBy(rows[1..])[i].id != rows[0].id {
        assert OrderBy(rows[1..])[i] in rows[1..];
      }
      InsertAdds(rows[0], OrderBy(rows[1..]));
      InsertOrders(rows[0], OrderBy(rows[1..]));
    }
  }

  /* ---------- filtering a sorted list ---------- */

  lemma {:induction false} WhereOfInsert(p: Problem, ps: seq<Problem>, activeOnly: bool, cursor: Option<Cursor>)
    requires InOrder(ps) && forall q :: q in ps ==> q.id != p.id
    ensures Where(Insert(p, ps), activeOnly, cursor)
         == (var kept := Where(ps, activeOnly, cursor); if Wanted(p, activeOnly, cursor) then Insert(p, kept) else kept)
  {
    if ps == [] || After(KeyOf(p), ps[0]) {
      assert ([p] + ps)[1..] == ps;
      FirstWanted(p, ps, activeOnly, cursor);
    } else {
      WhereOfInsert(p, ps[1..], activeOnly, cursor);
      assert ([ps[0]] + Insert(p, ps[1..]))[1..] == Insert(p, ps[1..]);
      var rest := Where(ps[1..], activeOnly, cursor);
      assert ([ps[0]] + rest)[1..] == rest;
      if !Wanted(ps[0], activeOnly, cursor) { assert [] + rest == rest; }
    }
  }

  /** What precedes a whole list precedes what is kept of it. */
  lemma {:induction false} FirstWanted(p: Problem, ps: seq<Problem>, activeOnly: bool, cursor: Option<Cursor>)
    requires forall i :: 0 <= i < |ps| && i == 0 ==> After(KeyOf(p), ps[i])
    requires InOrder(ps)
    ensures var kept := Where(ps, activeOnly, cursor); kept == [] || After(KeyOf(p), kept[0])
  {
    if ps != [] && !Wanted(ps[0], activeOnly, cursor) {
      FirstWanted(p, ps[1..], activeOnly, cursor);
      assert [] + Where(ps[1..], activeOnly, cursor) == Where(ps[1..], activeOnly, cursor);
    }
  }

  /** Filtering and sorting commute. */
  lemma {:induction false} WhereThenOrder(rows: seq<Problem>, activeOnly: bool, cursor: Option<Cursor>)
    requires DistinctIds(rows)
    ensures OrderBy(Where(rows, activeOnly, cursor)) == Where(OrderBy(rows), activeOnly, cursor)
  {
    if rows != [] {
      WhereThenOrder(rows[1..], activeOnly, cursor);
      OrderByOrders(rows[1..]);
      assert rows == [rows[0]] + rows[1..];
      WhereOfInsert(rows[0], OrderBy(rows[1..]), activeOnly, cursor);
      var rest := Where(rows[1..], activeOnly, cursor);
      assert ([rows[0]] + rest)[1..] == rest;
      assert [] + rest == rest;
    }
  }

  /** A cursor at position k - 1 of the list leaves the rest of it. */
  lemma {:induction false} WhereAfterPosition(ps: seq<Problem>, k: nat, c: Cursor)
    requires InOrder(ps) && k <= |ps|
    requires forall i :: 0 <= i < k ==> !After(c, ps[i])
    requires forall i :: k <= i < |ps| ==> After(c, ps[i])
    ensures Where(ps, false, Some(c)) == ps[k..]
  {
    if ps != [] {
      WhereAfterPosition(ps[1..], if k == 0 then 0 else k - 1, c);
      if k > 0 { assert ps[1..][k - 1..] == ps[k..]; }
    }
  }

  lemma {:induction false} WhereTwice(ps: seq<Problem>, activeOnly: bool, cursor: Option<Cursor>)
    ensures Where(ps, activeOnly, cursor) == Where(Where(ps, activeOnly, None), false, cursor)
  {
    if ps != [] {
      WhereTwice(ps[1..], activeOnly, cursor);
      var rest := Where(ps[1..], activeOnly, None);
      assert ([ps[0]] + rest)[1..] == rest;
      assert [] + rest == rest;
    }
  }

  /** The full list the pages are compared with. */
  function FullList(rows: seq<Problem>, activeOnly: bool): seq<Problem> {
    OrderBy(Where(rows, activeOnly, None))
  }

  lemma {:induction false} WhereKeeps(rows: seq<Problem>, activeOnly: bool, cursor: Option<Cursor>)
    requires DistinctIds(rows)
    ensures DistinctIds(Where(rows, activeOnly, cursor))
    ensures forall p :: p in Where(rows, activeOnly, cursor) <==> p in rows && Wanted(p, activeOnly, cursor)
  {
    if rows != [] {
      WhereKeeps(rows[1..], activeOnly, cursor);
      assert rows == [rows[0]] + rows[1..];
      var rest := Where(rows[1..], activeOnly, cursor);
      forall i | 0 <= i < |rest| ensures rest[i].id != rows[0].id { assert rest[i] in rows[1..]; }
    }
  }

  /** What a page sees: the full list from the cursor's position on. */
  lemma RestOfTheList(rows: seq<Problem>, activeOnly: bool, k: nat)
    requires DistinctIds(rows) && 0 < k <= |FullList(rows, activeOnly)|
    ensures var all := FullList(rows, activeOnly);
      OrderBy(Where(rows, activeOnly, Some(KeyOf(all[k - 1])))) == all[k..]
  {
    var all := FullList(rows, activeOnly);
    var c := KeyOf(all[k - 1]);
    WhereTwice(rows, activeOnly, Some(c));
    WhereKeeps(rows, activeOnly, None);
    WhereThenOrder(Where(rows, activeOnly, None), false, Some(c));
    OrderByOrders(Where(rows, activeOnly, None));
    WhereAfterPosition(all, k, c);
  }

  /** One page from position k of the list: the next items, and a cursor unless that is the end. */
  lemma PageFromPosition(rows: seq<Problem>, activeOnly: bool, k: nat, limit: int)
    requires DistinctIds(rows) && k <= |FullList(rows, activeOnly)|
    ensures var all := FullList(rows, activeOnly);
      var page := ListProblems(rows, activeOnly, if k == 0 then None else Some(KeyOf(all[k - 1])), limit);
      var n := if limit < 1 then 1 else if limit > 500 then 500 else limit;
      && (page.next == None <==> |all| <= k + n)
      && (page.next == None ==> page.items == all[k..])
      && (page.next.Some? ==> page.items == all[k..k + n] && page.next == Some(KeyOf(all[k + n - 1])))
  {
    CutRest(FullList(rows, activeOnly), k, Clamp(limit));
    if k > 0 { RestOfTheList(rows, activeOnly, k); }
  }

  lemma CutRest(all: seq<Problem>, k: nat, n: nat)
    requires k <= |all| && n > 0
    ensures var page := CutPage(all[k..], n);
      && (page.next == None <==> |all| <= k + n)
      && (page.next == None ==> page.items == all[k..])
      && (page.next.Some? ==> page.items == all[k..k + n] && page.next == Some(KeyOf(all[k + n - 1])))
    ensures all[0..] == all
  {
  }

  /** `cursor` stands after the first k items of the list. */
  predicate StandsAt(rows: seq<Problem>, activeOnly: bool, cursor: Option<Cursor>, k: nat) {
    var all := FullList(rows, activeOnly);
    k <= |all| && cursor == if k == 0 then None else Some(KeyOf(all[k - 1]))
  }

  lemma Halves(all: seq<Problem>, j: nat, k: nat)
    requires j <= k <= |all|
    ensures all[j..] == all[j..k] + all[k..]
  {
  }

  /** A page and the rest make the list from position k on. */
  lemma PageThenRest(all: seq<Problem>, k: nat, page: Page, n: nat, rest: seq<seq<Problem>>)
    requires k <= |all|
    requires page.next == None ==> page.items == all[k..]
    requires page.next.Some? ==> k + n <= |all| && page.items == all[k..k + n] && Concat(rest) == all[k + n..]
    ensures Concat(if page.next == None then [page.items] else [page.items] + rest) == all[k..]
  {
    ConcatPrepend(page.items, if page.next == None then [] else rest);
    assert [page.items] + [] == [page.items];
    if page.next.Some? { Halves(all, k, k + n); }
  }

  /** Follow next_cursor over an unchanged table until it is null: the pages make the rest of
      the list. */
  function Follow(rows: seq<Problem>, activeOnly: bool, limit: int, cursor: Option<Cursor>, ghost k: nat)
    : (pages: seq<seq<Problem>>)
    requires DistinctIds(rows) && StandsAt(rows, activeOnly, cursor, k)
    ensures Concat(pages) == FullList(rows, activeOnly)[k..]
    decreases |FullList(rows, activeOnly)| - k
  {
    var page := ListProblems(rows, activeOnly, cursor, limit);
    PageFromPosition(rows, activeOnly, k, limit);
    if page.next == None then
      PageThenRest(FullList(rows, activeOnly), k, page, 0, []);
      [page.items]
    else
      var rest := Follow(rows, activeOnly, limit, page.next, k + |page.items|);
      PageThenRest(FullList(rows, activeOnly), k, page, |page.items|, rest);
      [page.items] + rest
  }

  /** The severities that may precede a problem in the list. */
  function Before(s: P.Severity): set<P.Severity> {
    match s
    case Critical => {P.Critical}
    case Degraded => {P.Critical, P.Degraded}
    case Warning => {P.Critical, P.Degraded, P.Warning}
    case Informational => {P.Critical, P.Degraded, P.Warning, P.Informational}
    case Unknown => {P.Critical, P.Degraded, P.Warning, P.Informational, P.Unknown}
  }

  /** Critical problems first and so on down to those of unknown severity; of one severity the
      newest first, and of one time by id. */
  predicate Listed(ps: seq<Problem>) {
    forall i, j :: 0 <= i < j < |ps| ==>
      var p, q := ps[i].row, ps[j].row;
      && p.severity in Before(q.severity)
      && (p.severity == q.severity ==> p.openedAt >= q.openedAt)
      && (p.severity == q.severity && p.openedAt == q.openedAt ==> ps[i].id < ps[j].id)
  }

  /** Whatever the page size, the pages concatenate to the wanted problems in list order: each
      once, none skipped, none added. */
  lemma PagesAreTheWholeList(rows: seq<Problem>, activeOnly: bool, limit: int)
    requires DistinctIds(rows)
    ensures var listed := Concat(Follow(rows, activeOnly, limit, None, 0));
      && Listed(listed)
      && multiset(listed) == multiset(Where(rows, activeOnly, None))
      && forall p :: p in listed <==> p in rows && (activeOnly ==> p.row.state == P.Active)
  {
    WhereKeeps(rows, activeOnly, None);
    OrderByOrders(Where(rows, activeOnly, None));
    assert FullList(rows, activeOnly)[0..] == FullList(rows, activeOnly);
    OrderedIsListed(FullList(rows, activeOnly));
  }

  lemma OrderedIsListed(ps: seq<Problem>)
    requires InOrder(ps)
    ensures Listed(ps)
  {
    forall i, j | 0 <= i < j < |ps| ensures After(KeyOf(ps[i]), ps[j]) {
    }
  }
}
