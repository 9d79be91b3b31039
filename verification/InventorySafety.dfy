/** What every run of the inventory tables keeps: stable identities, and contents that follow
    the last good snapshot. */
module InventorySafety {
  import opened Common
  import opened Inventory

  /* ---------- the invariant ---------- */

  predicate OneRowPerRef(rs: seq<Resource>) {
    forall i, j :: 0 <= i < j < |rs| ==> rs[i].generation != rs[j].generation || rs[i].ref != rs[j].ref
  }

  ghost predicate Bound(db: Db, d: nat) { exists k :: k in db.bindings && db.bindings[k].definition == d }

  /** Bindings and definitions are in one-to-one correspondence, generation by generation, and
      every definition belongs to a resource of its generation. */
  ghost predicate BindingsOk(db: Db) {
    && (forall k :: k in db.bindings ==>
          db.bindings[k].definition < |db.definitions|
          && db.definitions[db.bindings[k].definition].generation == k.generation)
    && (forall k, l :: k in db.bindings && l in db.bindings && k != l ==>
          db.bindings[k].definition != db.bindings[l].definition)
    && (forall d :: 0 <= d < |db.definitions| ==> Bound(db, d))
    && (forall d :: 0 <= d < |db.definitions| ==>
          db.definitions[d].resource < |db.resources|
          && db.resources[db.definitions[d].resource].generation == db.definitions[d].generation)
  }

  ghost predicate Inv(db: Db) { OneRowPerRef(db.resources) && BindingsOk(db) }

  /** Identities only grow: no row changes what it identifies. */
  predicate KeepsIds(a: Db, b: Db) {
    && |a.resources| <= |b.resources|
    && (forall i :: 0 <= i < |a.resources| ==>
          b.resources[i].generation == a.resources[i].generation && b.resources[i].ref == a.resources[i].ref)
    && |a.definitions| <= |b.definitions|
    && (forall d :: 0 <= d < |a.definitions| ==>
          b.definitions[d].generation == a.definitions[d].generation
          && b.definitions[d].resource == a.definitions[d].resource)
    && (forall k :: k in a.bindings ==> k in b.bindings && b.bindings[k].definition == a.bindings[k].definition)
  }

  lemma FindIsUnique(rs: seq<Resource>, i: nat)
    requires OneRowPerRef(rs) && i < |rs|
    ensures Find(rs, rs[i].generation, rs[i].ref) == Some(i)
  {
  }

  /* ---------- hosts ---------- */

  /** Upserting the references `refs` of a generation turned `a` into `b`. */
  predicate Upserted(a: seq<Resource>, b: seq<Resource>, generation: nat, refs: set<string>) {
    && |a| <= |b|
    && (forall i :: 0 <= i < |a| ==>
          && b[i].generation == a[i].generation && b[i].ref == a[i].ref
          && (b[i].present <==> a[i].present || (a[i].generation == generation && a[i].ref in refs)))
    && (forall i :: |a| <= i < |b| ==> b[i].generation == generation && b[i].ref in refs && b[i].present)
  }

  lemma UpsertHostEffect(rs: seq<Resource>, generation: nat, h: Host)
    requires OneRowPerRef(rs)
    ensures OneRowPerRef(UpsertHost(rs, generation, h))
    ensures Upserted(rs, UpsertHost(rs, generation, h), generation, {h.ref})
    ensures PresentHost(UpsertHost(rs, generation, h), generation, h.ref)
  {
    var rs' := UpsertHost(rs, generation, h);
    var at := Find(rs, generation, h.ref);
    var i := if at == None then |rs| else at.value;
    assert rs'[i].generation == generation && rs'[i].ref == h.ref && rs'[i].present;
  }

  lemma StaysPresent(a: seq<Resource>, b: seq<Resource>, generation: nat, refs: set<string>, ref: string)
    requires Upserted(a, b, generation, refs) && PresentHost(a, generation, ref)
    ensures PresentHost(b, generation, ref)
  {
    var i :| 0 <= i < |a| && a[i].generation == generation && a[i].ref == ref && a[i].present;
    assert b[i].present;
  }

  lemma UpsertedTwice(a: seq<Resource>, b: seq<Resource>, c: seq<Resource>, generation: nat,
                      r: set<string>, s: set<string>)
    requires Upserted(a, b, generation, r) && Upserted(b, c, generation, s)
    ensures Upserted(a, c, generation, r + s)
  {
  }

  /** What a list of hosts does to the table, row by row. */
  lemma {:induction false} UpsertHostsEffect(rs: seq<Resource>, generation: nat, hs: seq<Host>)
    requires OneRowPerRef(rs)
    ensures OneRowPerRef(UpsertHosts(rs, generation, hs))
    ensures Upserted(rs, UpsertHosts(rs, generation, hs), generation, HostRefs(hs))
    ensures forall h :: h in HostRefs(hs) ==> PresentHost(UpsertHosts(rs, generation, hs), generation, h)
    decreases |hs|
  {
    if hs != [] {
      var mid := UpsertHost(rs, generation, hs[0]);
      var rs' := UpsertHosts(rs, generation, hs);
      UpsertHostEffect(rs, generation, hs[0]);
      UpsertHostsEffect(mid, generation, hs[1..]);
      UpsertedTwice(rs, mid, rs', generation, {hs[0].ref}, HostRefs(hs[1..]));
      HostRefsSplit(hs);
      StaysPresent(mid, rs', generation, HostRefs(hs[1..]), hs[0].ref);
    }
  }

  lemma HostRefsSplit(hs: seq<Host>)
    requires hs != []
    ensures HostRefs(hs) == {hs[0].ref} + HostRefs(hs[1..])
  {
    forall r | r in HostRefs(hs) ensures r in {hs[0].ref} + HostRefs(hs[1..]) {
      var i :| 0 <= i < |hs| && hs[i].ref == r;
      if i > 0 { assert hs[1..][i - 1].ref == r; }
    }
    forall r | r in HostRefs(hs[1..]) ensures r in HostRefs(hs) {
      var i :| 0 <= i < |hs| - 1 && hs[1..][i].ref == r;
      assert hs[i + 1].ref == r;
    }
  }

  /** A complete snapshot leaves exactly its hosts present; a degraded one, or one that aborts,
      leaves presence as it was. */
  lemma HostsDoneEffect(db: Db, g: nat, result: Result<Host>, generation: nat, ref: string)
    requires Inv(db)
    ensures var db' := CompleteHosts(db, g, result);
      PresentHost(db'.resources, generation, ref) <==>
        if g == generation && result.Succeeded? && DistinctHosts(result.rows) then ref in HostRefs(result.rows)
        else PresentHost(db.resources, generation, ref)
  {
    var db' := CompleteHosts(db, g, result);
    if result.Succeeded? && DistinctHosts(result.rows) {
      UpsertHostsEffect(db.resources, g, result.rows);
      var mid := UpsertHosts(db.resources, g, result.rows);
      if g == generation && ref in HostRefs(result.rows) {
        var i :| 0 <= i < |mid| && mid[i].generation == g && mid[i].ref == ref && mid[i].present;
        assert db'.resources[i] == mid[i];
      }
      if g != generation && PresentHost(db.resources, generation, ref) {
        var i :| 0 <= i < |db.resources| && db.resources[i].generation == generation
                 && db.resources[i].ref == ref && db.resources[i].present;
        assert db'.resources[i] == mid[i];
      }
    } else if result.Degraded? {
      if PresentHost(db.resources, generation, ref) {
        var i :| 0 <= i < |db.resources| && db.resources[i].generation == generation
                 && db.resources[i].ref == ref && db.resources[i].present;
        assert db'.resources[i].present;
      }
    }
  }

  lemma HostsDoneKeeps(db: Db, g: nat, result: Result<Host>)
    requires Inv(db)
    ensures Inv(CompleteHosts(db, g, result)) && KeepsIds(db, CompleteHosts(db, g, result))
  {
    if result.Succeeded? && DistinctHosts(result.rows) {
      UpsertHostsEffect(db.resources, g, result.rows);
    }
    var db' := CompleteHosts(db, g, result);
    forall d | 0 <= d < |db'.definitions| ensures Bound(db', d) { BoundStays(db, db', d); }
    forall d | 0 <= d < |db'.definitions|
      ensures db'.definitions[d].resource < |db'.resources|
      ensures db'.resources[db'.definitions[d].resource].generation == db'.definitions[d].generation
    {
      assert db'.definitions[d] == db.definitions[d];
    }
  }

  /* ---------- items ---------- */

  lemma BoundStays(a: Db, b: Db, d: nat)
    requires Bound(a, d)
    requires forall k :: k in a.bindings ==> k in b.bindings && b.bindings[k].definition == a.bindings[k].definition
    ensures Bound(b, d)
  {
    var k :| k in a.bindings && a.bindings[k].definition == d;
    assert k in b.bindings && b.bindings[k].definition == d;
  }

  lemma NewItemKeeps(db: Db, generation: nat, x: Item)
    requires Inv(db) && UpsertItem(db, generation, x).Some? && Key(generation, x.ref) !in db.bindings
    ensures BindingsOk(UpsertItem(db, generation, x).value)
  {
    var db' := UpsertItem(db, generation, x).value;
    var k := Key(generation, x.ref);
    assert db'.bindings[k].definition == |db.definitions|;
    forall d | 0 <= d < |db'.definitions| ensures Bound(db', d) {
      if d < |db.definitions| { BoundStays(db, db', d); }
    }
    forall d | 0 <= d < |db'.definitions|
      ensures db'.definitions[d].resource < |db'.resources|
      ensures db'.resources[db'.definitions[d].resource].generation == db'.definitions[d].generation
    {
      if d < |db.definitions| { assert db'.definitions[d] == db.definitions[d]; }
    }
  }

  lemma KnownItemKeeps(db: Db, generation: nat, x: Item)
    requires Inv(db) && UpsertItem(db, generation, x).Some? && Key(generation, x.ref) in db.bindings
    ensures BindingsOk(UpsertItem(db, generation, x).value)
  {
    var db' := UpsertItem(db, generation, x).value;
    forall d | 0 <= d < |db'.definitions| ensures Bound(db', d) { BoundStays(db, db', d); }
  }

  lemma UpsertItemKeepsIds(db: Db, generation: nat, x: Item)
    requires UpsertItem(db, generation, x).Some?
    ensures KeepsIds(db, UpsertItem(db, generation, x).value)
  {
  }

  lemma UpsertItemKeeps(db: Db, generation: nat, x: Item)
    requires Inv(db) && UpsertItem(db, generation, x).Some?
    ensures var db' := UpsertItem(db, generation, x).value;
      && Inv(db') && KeepsIds(db, db') && db'.resources == db.resources
      && Key(generation, x.ref) in db'.bindings
  {
    UpsertItemKeepsIds(db, generation, x);
    if Key(generation, x.ref) in db.bindings {
      KnownItemKeeps(db, generation, x);
    } else {
      NewItemKeeps(db, generation, x);
    }
  }

  predicate Active(db: Db, k: Key) {
    k in db.bindings && db.bindings[k].definition < |db.definitions| && db.definitions[db.bindings[k].definition].active
  }

  lemma UpsertItemActive(db: Db, generation: nat, x: Item, k: Key)
    requires Inv(db) && UpsertItem(db, generation, x).Some?
    ensures Active(UpsertItem(db, generation, x).value, k) <==> Active(db, k) || k == Key(generation, x.ref)
  {
  }

  lemma KeepsIdsTrans(a: Db, b: Db, c: Db)
    requires KeepsIds(a, b) && KeepsIds(b, c)
    ensures KeepsIds(a, c)
  {
  }

  /** The loop over the items: with every host present it never misses host_map. */
  lemma {:induction false} UpsertItemsEffect(db: Db, generation: nat, xs: seq<Item>, k: Key)
    requires Inv(db) && HostsPresent(db.resources, generation, xs)
    ensures UpsertItems(db, generation, xs).Some?
    ensures var db' := UpsertItems(db, generation, xs).value;
      && Inv(db') && KeepsIds(db, db') && db'.resources == db.resources
      && (Active(db', k) <==> Active(db, k) || (k.generation == generation && k.ref in ItemRefs(xs)))
      && (k.generation == generation && k.ref in ItemRefs(xs) ==> k in db'.bindings)
    decreases |xs|
  {
    if xs != [] {
      assert PresentHost(db.resources, generation, xs[0].host);
      var mid := UpsertItem(db, generation, xs[0]).value;
      UpsertItemKeeps(db, generation, xs[0]);
      UpsertItemActive(db, generation, xs[0], k);
      assert HostsPresent(mid.resources, generation, xs[1..]);
      UpsertItemsEffect(mid, generation, xs[1..], k);
      KeepsIdsTrans(db, mid, UpsertItems(db, generation, xs).value);
      ItemRefsSplit(xs);
    }
  }

  lemma ItemRefsSplit(xs: seq<Item>)
    requires xs != []
    ensures ItemRefs(xs) == {xs[0].ref} + ItemRefs(xs[1..])
  {
    forall r | r in ItemRefs(xs) ensures r in {xs[0].ref} + ItemRefs(xs[1..]) {
      var i :| 0 <= i < |xs| && xs[i].ref == r;
      if i > 0 { assert xs[1..][i - 1].ref == r; }
    }
    forall r | r in ItemRefs(xs[1..]) ensures r in ItemRefs(xs) {
      var i :| 0 <= i < |xs| - 1 && xs[1..][i].ref == r;
      assert xs[i + 1].ref == r;
    }
  }

  lemma RetireKeeps(db: Db, generation: nat, seen: set<string>)
    requires Inv(db)
    ensures Inv(RetireUnseen(db, generation, seen)) && KeepsIds(db, RetireUnseen(db, generation, seen))
  {
    var db' := RetireUnseen(db, generation, seen);
    forall d | 0 <= d < |db'.definitions| ensures Bound(db', d) { BoundStays(db, db', d); }
  }

  lemma RetireActive(db: Db, generation: nat, seen: set<string>, k: Key)
    requires Inv(db)
    ensures Active(RetireUnseen(db, generation, seen), k)
       <==> Active(db, k) && (k.generation != generation || k.ref in seen)
  {
    if k in db.bindings {
      var d := db.bindings[k].definition;
      if d in SeenDefinitions(db, generation, seen) {
        var l :| l in db.bindings && l.generation == generation && l.ref in seen && db.bindings[l].definition == d;
        assert l == k;
      }
    }
  }

  /** A successful poll leaves exactly its items active; any other completion leaves activity as
      it was.  It succeeds when every host is present and no reference repeats. */
  lemma ItemsDoneEffect(db: Db, g: nat, result: Result<Item>, k: Key)
    requires Inv(db)
    ensures var db' := CompleteItems(db, g, result);
      Active(db', k) <==>
        if k.generation == g && result.Succeeded?
           && DistinctItems(result.rows) && HostsPresent(db.resources, g, result.rows)
        then k.ref in ItemRefs(result.rows)
        else Active(db, k)
  {
    if result.Succeeded? && HostsPresent(db.resources, g, result.rows) {
      UpsertItemsEffect(db, g, result.rows, k);
      RetireActive(UpsertItems(db, g, result.rows).value, g, ItemRefs(result.rows), k);
    }
  }

  lemma ItemsDoneKeeps(db: Db, g: nat, result: Result<Item>)
    requires Inv(db)
    ensures Inv(CompleteItems(db, g, result)) && KeepsIds(db, CompleteItems(db, g, result))
    ensures CompleteItems(db, g, result).resources == db.resources
  {
    if result.Succeeded? && HostsPresent(db.resources, g, result.rows) {
      UpsertItemsEffect(db, g, result.rows, Key(g, ""));
      var mid := UpsertItems(db, g, result.rows).value;
      RetireKeeps(mid, g, ItemRefs(result.rows));
      KeepsIdsTrans(db, mid, RetireUnseen(mid, g, ItemRefs(result.rows)));
    } else {
      var db' := CompleteItems(db, g, result);
      forall d | 0 <= d < |db'.definitions| ensures Bound(db', d) { BoundStays(db, db', d); }
    }
  }

  /* ---------- runs ---------- */

  lemma StepKeeps(db: Db, e: Event)
    requires Inv(db)
    ensures Inv(Step(db, e)) && KeepsIds(db, Step(db, e))
  {
    match e
    case HostsDone(g, hosts) => HostsDoneKeeps(db, g, hosts);
    case ItemsDone(g, items) => ItemsDoneKeeps(db, g, items);
  }

  lemma {:induction false} RunInv(es: seq<Event>)
    ensures Inv(Run(es))
  {
    if es != [] {
      RunInv(es[..|es| - 1]);
      StepKeeps(Run(es[..|es| - 1]), es[|es| - 1]);
    }
  }

  /** The hosts of the last successful snapshot of a generation, read off the events alone. */
  function LastHosts(es: seq<Event>, generation: nat): set<string> {
    if es == [] then {}
    else
      var e := es[|es| - 1];
      if e.HostsDone? && e.generation == generation && e.hosts.Succeeded? && DistinctHosts(e.hosts.rows)
      then HostRefs(e.hosts.rows)
      else LastHosts(es[..|es| - 1], generation)
  }

  /** Likewise the items of the last successful poll: every host listed by the host snapshot
      then in force. */
  function LastItems(es: seq<Event>, generation: nat): set<string> {
    if es == [] then {}
    else
      var e := es[|es| - 1];
      if e.ItemsDone? && e.generation == generation && e.items.Succeeded? && DistinctItems(e.items.rows)
         && forall i :: 0 <= i < |e.items.rows| ==> e.items.rows[i].host in LastHosts(es[..|es| - 1], generation)
      then ItemRefs(e.items.rows)
      else LastItems(es[..|es| - 1], generation)
  }

  /** Over every run the present resources are exactly the hosts of the last successful
      snapshot of their generation. */
  lemma {:induction false} PresentIsLastGoodSnapshot(es: seq<Event>, generation: nat, ref: string)
    ensures PresentHost(Run(es).resources, generation, ref) <==> ref in LastHosts(es, generation)
  {
    if es != [] {
      var front, e := es[..|es| - 1], es[|es| - 1];
      PresentIsLastGoodSnapshot(front, generation, ref);
      RunInv(front);
      match e
      case HostsDone(g, hosts) => HostsDoneEffect(Run(front), g, hosts, generation, ref);
      case ItemsDone(g, items) => ItemsDoneKeeps(Run(front), g, items);
    }
  }

  /** Over every run the active definitions are exactly the items of the last successful poll. */
  lemma {:induction false} ActiveIsLastGoodPoll(es: seq<Event>, k: Key)
    ensures Active(Run(es), k) <==> k.ref in LastItems(es, k.generation)
  {
    if es != [] {
      var front, e := es[..|es| - 1], es[|es| - 1];
      ActiveIsLastGoodPoll(front, k);
      RunInv(front);
      match e
      case HostsDone(g, hosts) => assert Run(es).definitions == Run(front).definitions;
      case ItemsDone(g, items) =>
        ItemsDoneEffect(Run(front), g, items, k);
        if items.Succeeded? {
          forall i | 0 <= i < |items.rows|
            ensures PresentHost(Run(front).resources, g, items.rows[i].host)
               <==> items.rows[i].host in LastHosts(front, g)
          {
            PresentIsLastGoodSnapshot(front, g, items.rows[i].host);
          }
        }
    }
  }

  lemma {:induction false} RunKeepsIds(es: seq<Event>, n: nat)
    requires n <= |es|
    ensures KeepsIds(Run(es[..n]), Run(es))
    decreases |es|
  {
    if n == |es| {
      assert es[..n] == es;
    } else {
      var front := es[..|es| - 1];
      RunKeepsIds(front, n);
      assert front[..n] == es[..n];
      RunInv(front);
      StepKeeps(Run(front), es[|es| - 1]);
      KeepsIdsTrans(Run(es[..n]), Run(front), Run(es));
    }
  }

  /** One canonical id per reference, for ever: through removal, return, retirement and
      reactivation, in whatever runs follow. */
  lemma IdentitiesAreStable(es: seq<Event>, n: nat, generation: nat, ref: string)
    requires n <= |es|
    ensures Find(Run(es[..n]).resources, generation, ref).Some? ==>
              Find(Run(es).resources, generation, ref) == Find(Run(es[..n]).resources, generation, ref)
    ensures var k := Key(generation, ref);
      k in Run(es[..n]).bindings ==>
        k in Run(es).bindings && Run(es).bindings[k].definition == Run(es[..n]).bindings[k].definition
  {
    RunKeepsIds(es, n);
    RunInv(es);
    var i := Find(Run(es[..n]).resources, generation, ref);
    if i.Some? { FindIsUnique(Run(es).resources, i.value); }
  }

  /** No two references share an id, and every definition has exactly one binding. */
  lemma IdsAreDistinct(es: seq<Event>)
    ensures var db := Run(es);
      && (forall i, j :: 0 <= i < j < |db.resources| ==>
            db.resources[i].generation != db.resources[j].generation || db.resources[i].ref != db.resources[j].ref)
      && (forall k, l | k in db.bindings && l in db.bindings && k != l ::
            db.bindings[k].definition != db.bindings[l].definition)
      && (forall d :: 0 <= d < |db.definitions| ==> Bound(db, d))
  {
    RunInv(es);
  }

  /** The host association fence makes the host_map lookup total: past it, persisting a
      snapshot raises exactly when a reference repeats. */
  lemma FencedLookupIsTotal(es: seq<Event>, generation: nat, xs: seq<Item>)
    requires HostsPresent(Run(es).resources, generation, xs)
    ensures UpsertItems(Run(es), generation, xs).Some?
    ensures PersistItems(Run(es), generation, xs).Some? <==> DistinctItems(xs)
  {
    RunInv(es);
    UpsertItemsEffect(Run(es), generation, xs, Key(generation, ""));
  }

  predicate SameButEvidence(a: Db, b: Db) {
    && |a.resources| == |b.resources| && |a.definitions| == |b.definitions| && a.bindings == b.bindings
    && (forall i :: 0 <= i < |a.resources| ==> b.resources[i] == a.resources[i].(evidence := b.resources[i].evidence))
    && (forall d :: 0 <= d < |a.definitions| ==>
          b.definitions[d] == a.definitions[d].(evidence := b.definitions[d].evidence))
  }

  /** Degraded results, and item snapshots naming an absent host, remove and retire nothing:
      they touch evidence alone. */
  lemma DegradedTouchesEvidenceOnly(db: Db, e: Event)
    requires match e
             case HostsDone(_, hosts) => hosts.Degraded?
             case ItemsDone(g, items) => items.Degraded? || !HostsPresent(db.resources, g, items.rows)
    ensures SameButEvidence(db, Step(db, e))
  {
  }

  /* ---------- an item that moves to another host ---------- */

  /** The definition of `k` belongs to the resource of host `host`. */
  predicate BelongsTo(db: Db, k: Key, host: string) {
    && k in db.bindings && db.bindings[k].definition < |db.definitions|
    && db.definitions[db.bindings[k].definition].resource < |db.resources|
    && db.resources[db.definitions[db.bindings[k].definition].resource].ref == host
  }

  lemma OwnerAfterOther(db: Db, generation: nat, x: Item, k: Key, host: string)
    requires Inv(db) && UpsertItem(db, generation, x).Some? && k != Key(generation, x.ref)
    ensures k in UpsertItem(db, generation, x).value.bindings <==> k in db.bindings
    ensures BelongsTo(UpsertItem(db, generation, x).value, k, host) <==> BelongsTo(db, k, host)
  {
  }

  lemma OwnerAfterOwn(db: Db, generation: nat, x: Item)
    requires Inv(db) && UpsertItem(db, generation, x).Some?
    ensures BelongsTo(UpsertItem(db, generation, x).value, Key(generation, x.ref), x.host)
       <==> Key(generation, x.ref) !in db.bindings || BelongsTo(db, Key(generation, x.ref), x.host)
  {
  }

  lemma OwnerStays(a: Db, b: Db, k: Key, host: string)
    requires Inv(a) && KeepsIds(a, b) && k in a.bindings
    ensures BelongsTo(b, k, host) <==> BelongsTo(a, k, host)
  {
  }

  lemma {:induction false} UpsertItemsOwner(db: Db, generation: nat, xs: seq<Item>, j: nat)
    requires Inv(db) && HostsPresent(db.resources, generation, xs) && DistinctItems(xs) && j < |xs|
    ensures var k := Key(generation, xs[j].ref);
      && UpsertItems(db, generation, xs).Some?
      && (BelongsTo(UpsertItems(db, generation, xs).value, k, xs[j].host)
          <==> k !in db.bindings || BelongsTo(db, k, xs[j].host))
    decreases |xs|
  {
    var k := Key(generation, xs[j].ref);
    assert PresentHost(db.resources, generation, xs[0].host);
    var mid := UpsertItem(db, generation, xs[0]).value;
    UpsertItemKeeps(db, generation, xs[0]);
    assert HostsPresent(mid.resources, generation, xs[1..]);
    if j > 0 {
      OwnerAfterOther(db, generation, xs[0], k, xs[j].host);
      UpsertItemsOwner(mid, generation, xs[1..], j - 1);
    } else {
      OwnerAfterOwn(db, generation, xs[0]);
      UpsertItemsEffect(mid, generation, xs[1..], k);
      OwnerStays(mid, UpsertItems(mid, generation, xs[1..]).value, k, xs[0].host);
    }
  }

  /** After a successful poll the definition of an item belongs to the item's host if and only
      if the item was new or already belonged there: a definition keeps the resource of its
      item's first appearance although its binding follows the item to another host. */
  lemma DefinitionFollowsHostIffFirstSeen(es: seq<Event>, generation: nat, xs: seq<Item>, j: nat)
    requires HostsPresent(Run(es).resources, generation, xs) && DistinctItems(xs) && j < |xs|
    ensures var db, k := Run(es), Key(generation, xs[j].ref);
      BelongsTo(Step(db, ItemsDone(generation, Succeeded(xs))), k, xs[j].host)
      <==> k !in db.bindings || BelongsTo(db, k, xs[j].host)
  {
    RunInv(es);
    UpsertItemsOwner(Run(es), generation, xs, j);
  }

  const Hosts := HostsDone(1, Succeeded([Host("a", "A"), Host("b", "B")]))

  const OnA := Item("i", "a", "cpu", 0)

  const OnB := Item("i", "b", "cpu", 0)

  const FirstPoll := ItemsDone(1, Succeeded([OnA]))

  const LaterPoll := ItemsDone(1, Succeeded([OnB]))

  lemma HostsAreThere(es: seq<Event>, x: Item)
    requires LastHosts(es, 1) == {"a", "b"} && x.host in {"a", "b"}
    ensures HostsPresent(Run(es).resources, 1, [x])
  {
    PresentIsLastGoodSnapshot(es, 1, x.host);
  }

  lemma HostsListed()
    ensures LastHosts([Hosts], 1) == {"a", "b"} && LastHosts([Hosts, FirstPoll], 1) == {"a", "b"}
  {
    assert HostRefs(Hosts.hosts.rows) == {"a", "b"} by {
      assert Hosts.hosts.rows[0].ref == "a" && Hosts.hosts.rows[1].ref == "b";
    }
    assert "a"[0] != "b"[0];
    assert [Hosts, FirstPoll][..1] == [Hosts];
  }

  /** After the first poll the definition belongs to host a. */
  lemma FirstOnA()
    ensures BelongsTo(Run([Hosts, FirstPoll]), Key(1, "i"), "a")
  {
    HostsListed();
    HostsAreThere([Hosts], OnA);
    NothingBound([Hosts], Key(1, "i"));
    DefinitionFollowsHostIffFirstSeen([Hosts], 1, [OnA], 0);
    assert [Hosts, FirstPoll][..1] == [Hosts];
    assert Run([Hosts, FirstPoll]) == Step(Run([Hosts]), FirstPoll);
  }

  /** A concrete run from empty tables: after the move the item is active and its definition
      still belongs to host a. */
  lemma MovedItemKeepsItsOldResource()
    ensures var db := Run([Hosts, FirstPoll, LaterPoll]);
      Active(db, Key(1, "i")) && !BelongsTo(db, Key(1, "i"), "b")
  {
    var es, all := [Hosts, FirstPoll], [Hosts, FirstPoll, LaterPoll];
    FirstOnA();
    HostsListed();
    HostsAreThere(es, OnB);
    assert "a"[0] != "b"[0];
    DefinitionFollowsHostIffFirstSeen(es, 1, [OnB], 0);
    assert all[..2] == es;
    assert Run(all) == Step(Run(es), LaterPoll);
    MovedIsListed();
    ActiveIsLastGoodPoll(all, Key(1, "i"));
  }

  lemma MovedIsListed()
    ensures "i" in LastItems([Hosts, FirstPoll, LaterPoll], 1)
  {
    HostsListed();
    assert [Hosts, FirstPoll, LaterPoll][..2] == [Hosts, FirstPoll];
    assert [OnB][0].ref in ItemRefs([OnB]);
  }

  /** Host snapshots bind no item. */
  lemma NothingBound(es: seq<Event>, k: Key)
    requires |es| == 1 && es[0].HostsDone?
    ensures k !in Run(es).bindings
  {
    assert es[..0] == [];
    assert Run(es) == Step(Empty, es[0]);
  }
}
