/**
 Host and item snapshots merged into stable identities.  The tables of one source: a
 resource's and a definition's canonical id is its position in its table, fresh when inserted.
 */
module Inventory {
  import opened Common

  datatype Resource = Resource(generation: nat, ref: string, name: string, present: bool, evidence: Evidence)

  datatype Key = Key(generation: nat, ref: string)

  datatype Definition = Definition(generation: nat, resource: nat, name: string, active: bool, evidence: Evidence)

  datatype Binding = Binding(definition: nat, host: string, native: nat, evidence: Evidence)

  datatype Db = Db(resources: seq<Resource>, definitions: seq<Definition>, bindings: map<Key, Binding>)

  const Empty := Db([], [], map[])

  datatype Host = Host(ref: string, name: string)

  datatype Item = Item(ref: string, host: string, name: string, native: nat)

  datatype Result<T> = Succeeded(rows: seq<T>) | Degraded(evidence: Evidence)

  /* ---------- host inventory ---------- */

  /** The row of a reference; the table's unique key makes it the only one. */
  function Find(rs: seq<Resource>, generation: nat, ref: string): (i: Option<nat>)
    ensures i.Some? ==> i.value < |rs| && rs[i.value].generation == generation && rs[i.value].ref == ref
    ensures i == None ==> forall j :: 0 <= j < |rs| ==> rs[j].generation != generation || rs[j].ref != ref
  {
    if rs == [] then None
    else
      var front := Find(rs[..|rs| - 1], generation, ref);
      if front.Some? then front
      else if rs[|rs| - 1].generation == generation && rs[|rs| - 1].ref == ref then Some(|rs| - 1)
      else None
  }

  function UpsertHost(rs: seq<Resource>, generation: nat, h: Host): seq<Resource> {
    var i := Find(rs, generation, h.ref);
    if i == None then rs + [Resource(generation, h.ref, h.name, true, Current)]
    else rs[i.value := rs[i.value].(name := h.name, present := true, evidence := Current)]
  }

  function UpsertHosts(rs: seq<Resource>, generation: nat, hs: seq<Host>): seq<Resource>
    decreases |hs|
  {
    if hs == [] then rs else UpsertHosts(UpsertHost(rs, generation, hs[0]), generation, hs[1..])
  }

  function HostRefs(hs: seq<Host>): set<string> { set i | 0 <= i < |hs| :: hs[i].ref }

  /** Present resources the snapshot did not list become removed. */
  function RemoveUnseen(rs: seq<Resource>, generation: nat, seen: set<string>): seq<Resource> {
    seq(|rs|, i requires 0 <= i < |rs| =>
      if rs[i].generation == generation && rs[i].present && rs[i].ref !in seen
      then rs[i].(present := false, evidence := Current) else rs[i])
  }

  function DegradePresence(rs: seq<Resource>, generation: nat, e: Evidence): seq<Resource> {
    seq(|rs|, i requires 0 <= i < |rs| =>
      if rs[i].generation == generation && rs[i].present then rs[i].(evidence := e) else rs[i])
  }

  /** The snapshot's evidence rows are unique by reference. */
  predicate DistinctHosts(hs: seq<Host>) { forall i, j :: 0 <= i < j < |hs| ==> hs[i].ref != hs[j].ref }

  /** complete_host_inventory, once its fence holds; a duplicate reference aborts it. */
  function CompleteHosts(db: Db, generation: nat, result: Result<Host>): Db {
    match result
    case Degraded(e) => db.(resources := DegradePresence(db.resources, generation, e))
    case Succeeded(hs) =>
      if DistinctHosts(hs)
      then db.(resources := RemoveUnseen(UpsertHosts(db.resources, generation, hs), generation, HostRefs(hs)))
      else db
  }

  /* ---------- metric definitions ---------- */

  predicate PresentHost(rs: seq<Resource>, generation: nat, ref: string) {
    exists i :: 0 <= i < |rs| && rs[i].generation == generation && rs[i].ref == ref && rs[i].present
  }

  /** The host association fence. */
  predicate HostsPresent(rs: seq<Resource>, generation: nat, xs: seq<Item>) {
    forall i :: 0 <= i < |xs| ==> PresentHost(rs, generation, xs[i].host)
  }

  /** None is the KeyError of a host missing from host_map. */
  function UpsertItem(db: Db, generation: nat, x: Item): Option<Db> {
    var host := Find(db.resources, generation, x.host);
    if host == None then None
    else
      var k := Key(generation, x.ref);
      if k !in db.bindings then
        Some(db.(definitions := db.definitions + [Definition(generation, host.value, x.name, true, Current)],
                 bindings := db.bindings[k := Binding(|db.definitions|, x.host, x.native, Current)]))
      else
        var b := db.bindings[k];
        var e := if b.native != x.native then EvidenceReconciliation else Current;
        Some(db.(definitions := if b.definition < |db.definitions|
                   then db.definitions[b.definition :=
                     db.definitions[b.definition].(name := x.name, active := true, evidence := e)]
                   else db.definitions,
                 bindings := db.bindings[k := b.(host := x.host, native := x.native, evidence := e)]))
  }

  function UpsertItems(db: Db, generation: nat, xs: seq<Item>): Option<Db>
    decreases |xs|
  {
    if xs == [] then Some(db)
    else
      var db1 := UpsertItem(db, generation, xs[0]);
      if db1 == None then None else UpsertItems(db1.value, generation, xs[1..])
  }

  function ItemRefs(xs: seq<Item>): set<string> { set i | 0 <= i < |xs| :: xs[i].ref }

  function SeenDefinitions(db: Db, generation: nat, seen: set<string>): set<nat> {
    set k | k in db.bindings && k.generation == generation && k.ref in seen :: db.bindings[k].definition
  }

  /** Active definitions the snapshot did not list retire. */
  function RetireUnseen(db: Db, generation: nat, seen: set<string>): Db {
    var ids := SeenDefinitions(db, generation, seen);
    db.(definitions := seq(|db.definitions|, d requires 0 <= d < |db.definitions| =>
      if db.definitions[d].generation == generation && db.definitions[d].active && d !in ids
      then db.definitions[d].(active := false) else db.definitions[d]))
  }

  function DegradeDefinitions(db: Db, generation: nat, e: Evidence): Db {
    db.(definitions := seq(|db.definitions|, d requires 0 <= d < |db.definitions| =>
      if db.definitions[d].generation == generation && db.definitions[d].active
      then db.definitions[d].(evidence := e) else db.definitions[d]))
  }

  predicate DistinctItems(xs: seq<Item>) { forall i, j :: 0 <= i < j < |xs| ==> xs[i].ref != xs[j].ref }

  /** _persist_item_snapshot; None when it raises. */
  function PersistItems(db: Db, generation: nat, xs: seq<Item>): Option<Db> {
    var db1 := UpsertItems(db, generation, xs);
    if db1 == None || !DistinctItems(xs) then None else Some(RetireUnseen(db1.value, generation, ItemRefs(xs)))
  }

  /** complete_metric_definitions, once its fence holds. */
  function CompleteItems(db: Db, generation: nat, result: Result<Item>): Db {
    match result
    case Degraded(e) => DegradeDefinitions(db, generation, e)
    case Succeeded(xs) =>
      if !HostsPresent(db.resources, generation, xs) then DegradeDefinitions(db, generation, Incomplete)
      else
        var db1 := PersistItems(db, generation, xs);
        if db1 == None then db else db1.value
  }

  /* ---------- runs ---------- */

  datatype Event =
    | HostsDone(generation: nat, hosts: Result<Host>)
    | ItemsDone(generation: nat, items: Result<Item>)

  function Step(db: Db, e: Event): Db {
    match e
    case HostsDone(g, hosts) => CompleteHosts(db, g, hosts)
    case ItemsDone(g, items) => CompleteItems(db, g, items)
  }

  function Run(es: seq<Event>): Db {
    if es == [] then Empty else Step(Run(es[..|es| - 1]), es[|es| - 1])
  }
}
