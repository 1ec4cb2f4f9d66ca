/**
  The queries and record transformations of the gear service, over the gear
  inventory and the gear sets. The saving methods are in the `Storage` module.
*/
module GearService {
  import opened Wrappers
  import opened Seqs
  import opened Keyed
  import opened Records
  import opened Calendar

  /** `getGearById`: the first item with the id, or None. */
  function GearById(inventory: seq<GearItem>, id: Id): (r: Option<GearItem>)
    ensures r.None? <==> forall g :: g in inventory ==> g.id != id
    ensures r.Some? ==> exists k :: 0 <= k < |inventory| && inventory[k] == r.value && r.value.id == id
                          && forall j :: 0 <= j < k ==> inventory[j].id != id
  {
    Find(inventory, GearId, id)
  }

  /** `getGearSetById`: the first set with the id, or None. */
  function GearSetById(sets: seq<GearSet>, id: Id): (r: Option<GearSet>)
    ensures r.None? <==> forall s :: s in sets ==> s.id != id
    ensures r.Some? ==> exists k :: 0 <= k < |sets| && sets[k] == r.value && r.value.id == id
                          && forall j :: 0 <= j < k ==> sets[j].id != id
  {
    Find(sets, SetId, id)
  }

  /** `filterGearByCategory`: exactly the items of the category, in inventory order. */
  function FilterByCategory(inventory: seq<GearItem>, category: Category): (r: seq<GearItem>)
    ensures forall g :: g in r <==> g in inventory && g.category == category
    ensures Subseq(r, inventory)
  {
    Filter(inventory, (g: GearItem) => g.category == category)
  }

  /**
    The maintenance check of `getItemsNeedingMaintenance` (and of the gear view):
    a last-maintenance date and a truthy (non-zero) interval are both present, and
    the whole days elapsed since that date reach the interval.
  */
  predicate NeedsMaintenance(g: GearItem, nowMs: int)
  {
    g.lastMaintenance.Some? && g.maintenanceInterval.Some? && g.maintenanceInterval.value != 0
    && DaysSince(nowMs, g.lastMaintenance.value) >= g.maintenanceInterval.value
  }

  /**
    The floor of the elapsed days reaches the interval exactly when the instant
    lies at least `interval` whole days after midnight of the maintenance date.
  */
  lemma NeedsMaintenanceIff(g: GearItem, nowMs: int)
    ensures NeedsMaintenance(g, nowMs) <==>
              g.lastMaintenance.Some? && g.maintenanceInterval.Some? && g.maintenanceInterval.value != 0
              && nowMs >= StartOf(g.lastMaintenance.value) + g.maintenanceInterval.value * MsPerDay
  {
    if g.lastMaintenance.Some? && g.maintenanceInterval.Some? {
      var last, n := g.lastMaintenance.value, g.maintenanceInterval.value;
      var d := DaysSince(nowMs, last);
      assert StartOf(last) + d * MsPerDay <= nowMs < StartOf(last) + (d + 1) * MsPerDay;
      if d >= n {
        assert n * MsPerDay <= d * MsPerDay;
      } else {
        assert (d + 1) * MsPerDay <= n * MsPerDay;
      }
    }
  }

  /** An item that needs maintenance still needs it at any later instant. */
  lemma NeedsMaintenanceLater(g: GearItem, nowMs: int, laterMs: int)
    requires NeedsMaintenance(g, nowMs) && nowMs <= laterMs
    ensures NeedsMaintenance(g, laterMs)
  {
    NeedsMaintenanceIff(g, nowMs);
    NeedsMaintenanceIff(g, laterMs);
  }

  /** `getItemsNeedingMaintenance`: the items due at the instant, in inventory order. */
  function ItemsNeedingMaintenance(inventory: seq<GearItem>, nowMs: int): (r: seq<GearItem>)
    ensures forall g :: g in r <==> g in inventory && NeedsMaintenance(g, nowMs)
    ensures Subseq(r, inventory)
  {
    Filter(inventory, (g: GearItem) => NeedsMaintenance(g, nowMs))
  }

  /** One gear set after `deleteGearItem(id)`: the id is removed from its members. */
  function PruneSet(s: GearSet, id: Id): GearSet
  {
    s.(items := Filter(s.items, x => x != id))
  }

  /** All gear sets after `deleteGearItem(id)`. */
  function PruneSets(sets: seq<GearSet>, id: Id): (r: seq<GearSet>)
    ensures |r| == |sets|
  {
    seq(|sets|, i requires 0 <= i < |sets| => PruneSet(sets[i], id))
  }

  /**
    After the cascade no set lists the id; each set keeps its id, name,
    description and every other member, in order and count; a second prune
    changes nothing.
  */
  lemma PruneSetsSpec(sets: seq<GearSet>, id: Id)
    ensures forall i :: 0 <= i < |sets| ==> id !in PruneSets(sets, id)[i].items
    ensures forall i :: 0 <= i < |sets| ==>
              var s, p := sets[i], PruneSets(sets, id)[i];
              p.id == s.id && p.name == s.name && p.description == s.description && Subseq(p.items, s.items)
    ensures forall i, x :: 0 <= i < |sets| && x != id ==>
              multiset(PruneSets(sets, id)[i].items)[x] == multiset(sets[i].items)[x]
    ensures PruneSets(PruneSets(sets, id), id) == PruneSets(sets, id)
  {
    forall i | 0 <= i < |sets|
      ensures forall x :: x != id ==> multiset(PruneSets(sets, id)[i].items)[x] == multiset(sets[i].items)[x]
      ensures PruneSet(PruneSet(sets[i], id), id) == PruneSet(sets[i], id)
    {
      FilterMultiset(sets[i].items, x => x != id);
      FilterIdempotent(sets[i].items, x => x != id);
    }
  }

  /**
    `getGearSetItems`: [] for an unknown set; otherwise the inventory items whose
    id the first set with that id lists, in inventory order (ids with no item are
    skipped).
  */
  function GearSetItems(sets: seq<GearSet>, inventory: seq<GearItem>, setId: Id): (r: seq<GearItem>)
    ensures GearSetById(sets, setId).None? ==> r == []
    ensures GearSetById(sets, setId).Some? ==>
              forall g :: g in r <==> g in inventory && g.id in GearSetById(sets, setId).value.items
    ensures Subseq(r, inventory)
  {
    match GearSetById(sets, setId)
    case None => []
    case Some(gearSet) => Filter(inventory, (g: GearItem) => g.id in gearSet.items)
  }

  /** The inventory after `updateItemQuantity`: the first item with the id gets the quantity (any number, negative too). */
  function QuantitySet(inventory: seq<GearItem>, id: Id, quantity: int): seq<GearItem>
  {
    UpdateFirst(inventory, GearId, id, (g: GearItem) => g.(quantity := quantity))
  }

  /** The inventory after `updateMaintenanceDate`: the first item with the id gets the date. */
  function MaintenanceSet(inventory: seq<GearItem>, id: Id, date: Day): seq<GearItem>
  {
    UpdateFirst(inventory, GearId, id, (g: GearItem) => g.(lastMaintenance := Some(date)))
  }

  /**
    Each field update changes only that field of the first item with the id and
    keeps every item's id; it is a no-op for an unknown id.
  */
  lemma FieldUpdatesSpec(inventory: seq<GearItem>, id: Id, quantity: int, date: Day)
    ensures |QuantitySet(inventory, id, quantity)| == |MaintenanceSet(inventory, id, date)| == |inventory|
    ensures FirstIndex(inventory, GearId, id).None? ==>
              QuantitySet(inventory, id, quantity) == inventory && MaintenanceSet(inventory, id, date) == inventory
    ensures FirstIndex(inventory, GearId, id).Some? ==>
              var k := FirstIndex(inventory, GearId, id).value;
              QuantitySet(inventory, id, quantity) == inventory[k := inventory[k].(quantity := quantity)]
              && MaintenanceSet(inventory, id, date) == inventory[k := inventory[k].(lastMaintenance := Some(date))]
    ensures GearById(QuantitySet(inventory, id, quantity), id).Some? <==> GearById(inventory, id).Some?
    ensures GearById(inventory, id).Some? ==> GearById(QuantitySet(inventory, id, quantity), id).value.quantity == quantity
  {
    match FirstIndex(inventory, GearId, id)
    case None =>
    case Some(k) =>
      FirstIndexAfterSet(inventory, GearId, id, k, inventory[k].(quantity := quantity));
  }
}
