/** The inventory tables updated in place by the two completions, rolled back when one raises. */
module InventoryRepository {
  import opened Common
  import opened Inventory
  import Safety = InventorySafety

  lemma OneMoreItem(xs: seq<Item>, k: nat)
    requires k < |xs|
    ensures ItemRefs(xs[..k + 1]) == ItemRefs(xs[..k]) + {xs[k].ref}
    ensures DistinctItems(xs[..k + 1]) <==> DistinctItems(xs[..k]) && xs[k].ref !in ItemRefs(xs[..k])
  {
    assert xs[..k + 1] == xs[..k] + [xs[k]];
    forall r | r in ItemRefs(xs[..k]) ensures r in ItemRefs(xs[..k + 1]) {
      var i :| 0 <= i < k && xs[..k][i].ref == r;
      assert xs[..k + 1][i].ref == r;
    }
    assert xs[..k + 1][k].ref == xs[k].ref;
    if xs[k].ref in ItemRefs(xs[..k]) {
      var i :| 0 <= i < k && xs[..k][i].ref == xs[k].ref;
      assert xs[..k + 1][i].ref == xs[..k + 1][k].ref;
    }
    if DistinctItems(xs[..k + 1]) {
      assert forall i :: 0 <= i < k ==> xs[..k][i] == xs[..k + 1][i];
    }
  }

  lemma DistinctPrefix(xs: seq<Item>, k: nat)
    requires k <= |xs| && DistinctItems(xs)
    ensures DistinctItems(xs[..k])
  {
  }

  class Repository {
    var resources: seq<Resource>
    var definitions: seq<Definition>
    var bindings: map<Key, Binding>

    function View(): Db
      reads this
    {
      Db(resources, definitions, bindings)
    }

    constructor ()
      ensures View() == Empty && Safety.Inv(View())
    {
      resources, definitions, bindings := [], [], map[];
    }

    /** _persist_snapshot: false when the evidence rows collide. */
    method PersistSnapshot(generation: nat, hosts: seq<Host>) returns (ok: bool)
      modifies this`resources
      ensures ok <==> DistinctHosts(hosts)
      ensures ok ==>
        resources == RemoveUnseen(UpsertHosts(old(resources), generation, hosts), generation, HostRefs(hosts))
    {
      for k := 0 to |hosts|
        invariant UpsertHosts(resources, generation, hosts[k..]) == UpsertHosts(old(resources), generation, hosts)
      {
        assert hosts[k..][1..] == hosts[k + 1..];
        var h := hosts[k];
        var row := Find(resources, generation, h.ref);
        if row == None {
          resources := resources + [Resource(generation, h.ref, h.name, true, Current)];
        } else {
          resources := resources[row.value :=
            resources[row.value].(name := h.name, present := true, evidence := Current)];
        }
      }
      resources := RemoveUnseen(resources, generation, HostRefs(hosts));
      ok := DistinctHosts(hosts);
    }

    /** complete_host_inventory, after its fence */
    method CompleteHostInventory(generation: nat, result: Result<Host>)
      requires Safety.Inv(View())
      modifies this
      ensures View() == Step(old(View()), HostsDone(generation, result))
      ensures Safety.Inv(View()) && Safety.KeepsIds(old(View()), View())
    {
      Safety.StepKeeps(View(), HostsDone(generation, result));
      match result
      case Degraded(e) => resources := DegradePresence(resources, generation, e);
      case Succeeded(hosts) =>
        var before := resources;
        var ok := PersistSnapshot(generation, hosts);
        if !ok { resources := before; }
    }

    method PersistItem(generation: nat, x: Item) returns (ok: bool)
      modifies this`definitions, this`bindings
      ensures ok <==> UpsertItem(old(View()), generation, x).Some?
      ensures ok ==> View() == UpsertItem(old(View()), generation, x).value
    {
      var host := Find(resources, generation, x.host);
      if host == None { return false; }
      var k := Key(generation, x.ref);
      if k !in bindings {
        var id := |definitions|;
        definitions := definitions + [Definition(generation, host.value, x.name, true, Current)];
        bindings := bindings[k := Binding(id, x.host, x.native, Current)];
      } else {
        var b := bindings[k];
        var e := if b.native != x.native then EvidenceReconciliation else Current;
        if b.definition < |definitions| {
          definitions := definitions[b.definition :=
            definitions[b.definition].(name := x.name, active := true, evidence := e)];
        }
        bindings := bindings[k := b.(host := x.host, native := x.native, evidence := e)];
      }
      ok := true;
    }

    /** _persist_item_snapshot: false when it raises. */
    method PersistItemSnapshot(generation: nat, items: seq<Item>) returns (ok: bool)
      modifies this`definitions, this`bindings
      ensures ok <==> PersistItems(old(View()), generation, items).Some?
      ensures ok ==> View() == PersistItems(old(View()), generation, items).value
    {
      var seen: set<string> := {};
      for k := 0 to |items|
        invariant UpsertItems(View(), generation, items[k..]) == UpsertItems(old(View()), generation, items)
        invariant seen == ItemRefs(items[..k])
        invariant DistinctItems(items[..k])
      {
        assert items[k..][1..] == items[k + 1..];
        var x := items[k];
        OneMoreItem(items, k);
        if x.ref in seen {
          if DistinctItems(items) { DistinctPrefix(items, k + 1); }
          return false;
        }
        seen := seen + {x.ref};
        ok := PersistItem(generation, x);
        if !ok { return; }
      }
      assert items[..|items|] == items;
      var ids := SeenDefinitions(View(), generation, seen);
      definitions := seq(|definitions|, d requires 0 <= d < |definitions| reads this =>
        if definitions[d].generation == generation && definitions[d].active && d !in ids
        then definitions[d].(active := false) else definitions[d]);
      ok := true;
    }

    /** complete_metric_definitions, after its fence on the operation */
    method CompleteMetricDefinitions(generation: nat, result: Result<Item>)
      requires Safety.Inv(View())
      modifies this`definitions, this`bindings
      ensures View() == Step(old(View()), ItemsDone(generation, result))
      ensures Safety.Inv(View()) && Safety.KeepsIds(old(View()), View())
    {
      Safety.StepKeeps(View(), ItemsDone(generation, result));
      match result
      case Degraded(e) => definitions := DegradeDefinitions(View(), generation, e).definitions;
      case Succeeded(items) =>
        if !HostsPresent(resources, generation, items) {
          definitions := DegradeDefinitions(View(), generation, Incomplete).definitions;
        } else {
          var definitions0, bindings0 := definitions, bindings;
          var ok := PersistItemSnapshot(generation, items);
          if !ok { definitions, bindings := definitions0, bindings0; }
        }
    }
  }
}
