/**
 What the two inventory completions write, row by row: the names, hosts and native types of what a
 snapshot lists, what becomes of the rest, and whose evidence a degraded result lowers.
 */
module InventoryEffects {
  import opened Common
  import opened Inventory
  import opened InventorySafety

  /* ---------- hosts ---------- */

  predicate Lists(hs: seq<Host>, ref: string) { exists j :: 0 <= j < |hs| && hs[j].ref == ref }

  /** The row of a listed host shows the host; the others are as they were. */
  predicate HostRow(rs: seq<Resource>, rs': seq<Resource>, generation: nat, hs: seq<Host>, i: nat)
    requires i < |rs'|
  {
    var r := rs'[i];
    && (r.generation == generation && Lists(hs, r.ref) ==>
          exists j :: 0 <= j < |hs| && r == Resource(generation, hs[j].ref, hs[j].name, true, Current))
    && (!(r.generation == generation && Lists(hs, r.ref)) ==> i < |rs| && r == rs[i])
  }

  lemma UpsertHostRow(rs: seq<Resource>, generation: nat, h: Host, i: nat)
    requires OneRowPerRef(rs) && i < |UpsertHost(rs, generation, h)|
    ensures var r := UpsertHost(rs, generation, h)[i];
      if r.generation == generation && r.ref == h.ref then r == Resource(generation, h.ref, h.name, true, Current)
      else i < |rs| && r == rs[i]
  {
  }

  lemma {:induction false} UpsertHostsRow(rs: seq<Resource>, generation: nat, hs: seq<Host>, i: nat)
    requires OneRowPerRef(rs) && DistinctHosts(hs) && i < |UpsertHosts(rs, generation, hs)|
    ensures HostRow(rs, UpsertHosts(rs, generation, hs), generation, hs, i)
    decreases |hs|
  {
    if hs != [] {
      var mid, tail, rs' := UpsertHost(rs, generation, hs[0]), hs[1..], UpsertHosts(rs, generation, hs);
      UpsertHostEffect(rs, generation, hs[0]);
      UpsertHostsRow(mid, generation, tail, i);
      var r := rs'[i];
      if r.generation == generation && Lists(tail, r.ref) {
        var j :| 0 <= j < |tail| && r == Resource(generation, tail[j].ref, tail[j].name, true, Current);
        assert r == Resource(generation, hs[j + 1].ref, hs[j + 1].name, true, Current);
      } else {
        UpsertHostRow(rs, generation, hs[0], i);
        if Lists(hs, r.ref) && r.ref != hs[0].ref {
          var j :| 0 <= j < |hs| && hs[j].ref == r.ref;
          assert tail[j - 1].ref == r.ref;
        }
      }
    }
  }

  lemma ListsIsRef(hs: seq<Host>, ref: string)
    ensures Lists(hs, ref) <==> ref in HostRefs(hs)
  {
  }

  /** A good snapshot writes each listed host's name on its one row, present and with current
      evidence; a row of the generation it does not list is removed, with current evidence, if it
      was present; and no other row changes. */
  lemma SnapshotWritesItsHosts(es: seq<Event>, generation: nat, hs: seq<Host>, i: nat)
    requires DistinctHosts(hs)
    requires i < |Step(Run(es), HostsDone(generation, Succeeded(hs))).resources|
    ensures var db, db' := Run(es), Step(Run(es), HostsDone(generation, Succeeded(hs)));
      var r := db'.resources[i];
      && db' == db.(resources := db'.resources)
      && (r.generation == generation && Lists(hs, r.ref) ==>
            exists j :: 0 <= j < |hs| && r == Resource(generation, hs[j].ref, hs[j].name, true, Current))
      && (r.generation == generation && !Lists(hs, r.ref) ==>
            i < |db.resources|
            && r == if db.resources[i].present then db.resources[i].(present := false, evidence := Current)
                    else db.resources[i])
      && (r.generation != generation ==> i < |db.resources| && r == db.resources[i])
  {
    RunInv(es);
    UpsertHostsEffect(Run(es).resources, generation, hs);
    UpsertHostsRow(Run(es).resources, generation, hs, i);
    ListsIsRef(hs, Step(Run(es), HostsDone(generation, Succeeded(hs))).resources[i].ref);
  }

  /** A snapshot that lists a reference twice is rolled back. */
  lemma RepeatedReferenceIsRolledBack(db: Db, generation: nat, hs: seq<Host>, xs: seq<Item>, i: nat, j: nat)
    requires i < j < |hs| && hs[i].ref == hs[j].ref
    requires exists k, l :: 0 <= k < l < |xs| && xs[k].ref == xs[l].ref
    requires HostsPresent(db.resources, generation, xs)
    ensures Step(db, HostsDone(generation, Succeeded(hs))) == db
    ensures Step(db, ItemsDone(generation, Succeeded(xs))) == db
  {
  }

  /* ---------- items ---------- */

  predicate ListsItem(xs: seq<Item>, ref: string) { exists j :: 0 <= j < |xs| && xs[j].ref == ref }

  /** The definition and binding of a listed item show the item, under reconciliation if its
      native type changed. */
  predicate ShowsItem(a: Db, b: Db, generation: nat, x: Item) {
    var k := Key(generation, x.ref);
    && k in b.bindings && b.bindings[k].definition < |b.definitions|
    && var d, n := b.definitions[b.bindings[k].definition], b.bindings[k];
    && d.name == x.name && d.active && n.host == x.host && n.native == x.native
    && d.evidence == n.evidence
    && n.evidence == if k in a.bindings && a.bindings[k].native != x.native then EvidenceReconciliation else Current
  }

  /** A binding and its definition, if there are any, are as they were. */
  predicate SameItem(a: Db, b: Db, k: Key) {
    && (k in b.bindings <==> k in a.bindings)
    && (k in a.bindings ==>
          && b.bindings[k] == a.bindings[k]
          && b.bindings[k].definition < |b.definitions| && a.bindings[k].definition < |a.definitions|
          && b.definitions[b.bindings[k].definition] == a.definitions[a.bindings[k].definition])
  }

  lemma UpsertItemShows(db: Db, generation: nat, x: Item, k: Key)
    requires Inv(db) && UpsertItem(db, generation, x).Some?
    ensures var db' := UpsertItem(db, generation, x).value;
      && ShowsItem(db, db', generation, x)
      && (k != Key(generation, x.ref) ==> SameItem(db, db', k))
  {
  }

  lemma ShowsLater(a: Db, b: Db, c: Db, generation: nat, x: Item)
    requires ShowsItem(a, b, generation, x) && SameItem(b, c, Key(generation, x.ref))
    ensures ShowsItem(a, c, generation, x)
  {
  }

  lemma ShowsSince(a: Db, b: Db, c: Db, generation: nat, x: Item)
    requires ShowsItem(b, c, generation, x)
    requires SameItem(a, b, Key(generation, x.ref))
    ensures ShowsItem(a, c, generation, x)
  {
  }

  lemma SameTwice(a: Db, b: Db, c: Db, k: Key)
    requires SameItem(a, b, k) && SameItem(b, c, k)
    ensures SameItem(a, c, k)
  {
  }

  /** One item of a fenced poll: it goes in, and the fence holds for the rest. */
  lemma FirstItem(db: Db, generation: nat, xs: seq<Item>, k: Key)
    requires xs != [] && Inv(db) && HostsPresent(db.resources, generation, xs)
    ensures UpsertItem(db, generation, xs[0]).Some?
    ensures var mid := UpsertItem(db, generation, xs[0]).value;
      && Inv(mid) && HostsPresent(mid.resources, generation, xs[1..])
      && ShowsItem(db, mid, generation, xs[0])
      && (k != Key(generation, xs[0].ref) ==> SameItem(db, mid, k))
  {
    assert PresentHost(db.resources, generation, xs[0].host);
    UpsertItemKeeps(db, generation, xs[0]);
    UpsertItemShows(db, generation, xs[0], k);
  }

  lemma {:induction false} UpsertItemsSame(db: Db, generation: nat, xs: seq<Item>, k: Key)
    requires Inv(db) && HostsPresent(db.resources, generation, xs)
    requires forall j :: 0 <= j < |xs| ==> k != Key(generation, xs[j].ref)
    ensures UpsertItems(db, generation, xs).Some? && SameItem(db, UpsertItems(db, generation, xs).value, k)
    decreases |xs|
  {
    if xs == [] {
      SameSelf(db, k);
    } else {
      FirstItem(db, generation, xs, k);
      var mid := UpsertItem(db, generation, xs[0]).value;
      UpsertItemsSame(mid, generation, xs[1..], k);
      SameTwice(db, mid, UpsertItems(db, generation, xs).value, k);
    }
  }

  lemma SameSelf(db: Db, k: Key)
    requires Inv(db)
    ensures SameItem(db, db, k)
  {
  }

  lemma ShownFirst(db: Db, mid: Db, generation: nat, xs: seq<Item>)
    requires xs != [] && UpsertItem(db, generation, xs[0]) == Some(mid) && UpsertItems(mid, generation, xs[1..]).Some?
    requires ShowsItem(db, mid, generation, xs[0])
    requires SameItem(mid, UpsertItems(mid, generation, xs[1..]).value, Key(generation, xs[0].ref))
    ensures UpsertItems(db, generation, xs).Some?
    ensures ShowsItem(db, UpsertItems(db, generation, xs).value, generation, xs[0])
  {
    ShowsLater(db, mid, UpsertItems(mid, generation, xs[1..]).value, generation, xs[0]);
  }

  lemma ShownInTail(db: Db, mid: Db, generation: nat, xs: seq<Item>, x: Item)
    requires xs != [] && UpsertItem(db, generation, xs[0]) == Some(mid) && UpsertItems(mid, generation, xs[1..]).Some?
    requires SameItem(db, mid, Key(generation, x.ref))
    requires ShowsItem(mid, UpsertItems(mid, generation, xs[1..]).value, generation, x)
    ensures UpsertItems(db, generation, xs).Some?
    ensures ShowsItem(db, UpsertItems(db, generation, xs).value, generation, x)
  {
    ShowsSince(db, mid, UpsertItems(mid, generation, xs[1..]).value, generation, x);
  }

  lemma DistinctTail(xs: seq<Item>)
    requires xs != [] && DistinctItems(xs)
    ensures DistinctItems(xs[1..])
    ensures forall j :: 0 < j < |xs| ==> xs[j].ref != xs[0].ref && xs[1..][j - 1] == xs[j]
  {
  }

  lemma {:induction false} UpsertItemsShow(db: Db, generation: nat, xs: seq<Item>, j: nat)
    requires Inv(db) && HostsPresent(db.resources, generation, xs) && DistinctItems(xs) && j < |xs|
    ensures UpsertItems(db, generation, xs).Some?
    ensures ShowsItem(db, UpsertItems(db, generation, xs).value, generation, xs[j])
    decreases |xs|
  {
    var x, tail := xs[j], xs[1..];
    DistinctTail(xs);
    FirstItem(db, generation, xs, Key(generation, x.ref));
    var mid := UpsertItem(db, generation, xs[0]).value;
    if j == 0 {
      UpsertItemsSame(mid, generation, tail, Key(generation, x.ref));
      ShownFirst(db, mid, generation, xs);
    } else {
      assert tail[j - 1] == x;
      UpsertItemsShow(mid, generation, tail, j - 1);
      ShownInTail(db, mid, generation, xs, x);
    }
  }

  lemma ItemListed(xs: seq<Item>, ref: string)
    ensures ListsItem(xs, ref) <==> ref in ItemRefs(xs)
  {
  }

  lemma RetiresOnly(db: Db, generation: nat, seen: set<string>, k: Key)
    requires Inv(db) && k in db.bindings
    ensures var db', d := RetireUnseen(db, generation, seen), db.bindings[k].definition;
      && db'.bindings == db.bindings && db'.resources == db.resources && |db'.definitions| == |db.definitions|
      && db'.definitions[d]
         == db.definitions[d].(active := db.definitions[d].active && (k.generation != generation || k.ref in seen))
  {
    var d := db.bindings[k].definition;
    if d in SeenDefinitions(db, generation, seen) {
      var l :| l in db.bindings && l.generation == generation && l.ref in seen && db.bindings[l].definition == d;
      assert l == k;
    }
  }

  lemma ShownStays(a: Db, b: Db, generation: nat, seen: set<string>, x: Item)
    requires Inv(b) && ShowsItem(a, b, generation, x) && x.ref in seen
    ensures ShowsItem(a, RetireUnseen(b, generation, seen), generation, x)
  {
    RetiresOnly(b, generation, seen, Key(generation, x.ref));
  }

  /** A good poll writes each listed item's name, host and native type on its one definition and
      binding, active, with current evidence unless the native type changed. */
  lemma PollWritesItsItems(es: seq<Event>, generation: nat, xs: seq<Item>, j: nat)
    requires HostsPresent(Run(es).resources, generation, xs) && DistinctItems(xs) && j < |xs|
    ensures var db, db' := Run(es), Step(Run(es), ItemsDone(generation, Succeeded(xs)));
      db'.resources == db.resources && ShowsItem(db, db', generation, xs[j])
  {
    var db := Run(es);
    RunInv(es);
    UpsertItemsEffect(db, generation, xs, Key(generation, xs[j].ref));
    UpsertItemsShow(db, generation, xs, j);
    assert xs[j].ref in ItemRefs(xs);
    ShownStays(db, UpsertItems(db, generation, xs).value, generation, ItemRefs(xs), xs[j]);
  }

  /** The binding is as it was, and so is its definition, but for retiring if it is of the
      poll's generation. */
  predicate Retires(a: Db, b: Db, generation: nat, k: Key) {
    && (k in b.bindings <==> k in a.bindings)
    && (k in a.bindings ==>
          && b.bindings[k] == a.bindings[k]
          && a.bindings[k].definition < |a.definitions| && a.bindings[k].definition < |b.definitions|
          && var d := a.definitions[a.bindings[k].definition];
          b.definitions[a.bindings[k].definition] == d.(active := d.active && k.generation != generation))
  }

  lemma RestRetires(a: Db, b: Db, generation: nat, seen: set<string>, k: Key)
    requires Inv(b) && SameItem(a, b, k) && (k.generation == generation ==> k.ref !in seen)
    ensures Retires(a, RetireUnseen(b, generation, seen), generation, k)
  {
    if k in b.bindings { RetiresOnly(b, generation, seen, k); }
  }

  /** A definition that a good poll of its generation does not list retires, with nothing else
      changed; those of other generations are untouched. */
  lemma PollRetiresTheRest(es: seq<Event>, generation: nat, xs: seq<Item>, k: Key)
    requires HostsPresent(Run(es).resources, generation, xs) && DistinctItems(xs)
    requires k.generation == generation ==> !ListsItem(xs, k.ref)
    ensures Retires(Run(es), Step(Run(es), ItemsDone(generation, Succeeded(xs))), generation, k)
  {
    RunInv(es);
    UpsertItemsEffect(Run(es), generation, xs, k);
    UpsertItemsSame(Run(es), generation, xs, k);
    ItemListed(xs, k.ref);
    RestRetires(Run(es), UpsertItems(Run(es), generation, xs).value, generation, ItemRefs(xs), k);
  }

  /* ---------- degraded results ---------- */

  /** A degraded result lowers the evidence of exactly what its generation holds present or
      active, to the evidence it reports; an item poll that names an absent host counts as
      incomplete. */
  lemma DegradedMarksWhatIsThere(db: Db, generation: nat, e: Evidence, xs: seq<Item>, i: nat, d: nat)
    requires i < |db.resources| && d < |db.definitions| && !HostsPresent(db.resources, generation, xs)
    ensures var a, b, c := Step(db, HostsDone(generation, Degraded(e))), Step(db, ItemsDone(generation, Degraded(e))),
                           Step(db, ItemsDone(generation, Succeeded(xs)));
      var r, x := db.resources[i], db.definitions[d];
      && |a.resources| == |db.resources| && a == db.(resources := a.resources)
      && a.resources[i] == (if r.generation == generation && r.present then r.(evidence := e) else r)
      && |b.definitions| == |db.definitions| && b == db.(definitions := b.definitions)
      && b.definitions[d] == (if x.generation == generation && x.active then x.(evidence := e) else x)
      && |c.definitions| == |db.definitions| && c == db.(definitions := c.definitions)
      && c.definitions[d] == (if x.generation == generation && x.active then x.(evidence := Incomplete) else x)
  {
  }
}
