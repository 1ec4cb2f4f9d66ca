/** The gear reducer over its state draft. No reducer touches `loading` or `error`. */
module GearSlice {
  import opened Wrappers
  import opened Seqs
  import opened Keyed
  import opened Records
  import opened GearService

  class GearState {
    var inventory: seq<GearItem>
    var gearSets: seq<GearSet>
    var loading: bool
    var error: Option<string>

    constructor ()
      ensures inventory == [] && gearSets == [] && !loading && error == None
    {
      inventory, gearSets, loading, error := [], [], false, None;
    }

    /** `addGearItem`: pushes the payload. */
    method AddGearItem(g: GearItem)
      modifies this`inventory
      ensures inventory == old(inventory) + [g]
    {
      inventory := inventory + [g];
    }

    /** `updateGearItem`: replaces the first item with the payload's id; no-op when there is none. */
    method UpdateGearItem(g: GearItem)
      modifies this`inventory
      ensures |inventory| == |old(inventory)|
      ensures match FirstIndex(old(inventory), GearId, g.id)
              case None => inventory == old(inventory)
              case Some(k) => inventory == old(inventory)[k := g]
    {
      var index := FirstIndex(inventory, GearId, g.id);
      if index.Some? {
        inventory := inventory[index.value := g];
      }
    }

    /**
      `deleteGearItem`: drops the item, then visits every set and removes the id
      from its members in place.
    */
    method DeleteGearItem(id: Id)
      modifies this`inventory, this`gearSets
      ensures inventory == RemoveAll(old(inventory), GearId, id)
      ensures gearSets == PruneSets(old(gearSets), id)
    {
      inventory := RemoveAll(inventory, GearId, id);
      var i := 0;
      while i < |gearSets|
        invariant inventory == RemoveAll(old(inventory), GearId, id)
        invariant 0 <= i <= |gearSets| == |old(gearSets)|
        invariant forall j :: 0 <= j < i ==> gearSets[j] == PruneSet(old(gearSets)[j], id)
        invariant forall j :: i <= j < |gearSets| ==> gearSets[j] == old(gearSets)[j]
      {
        gearSets := gearSets[i := gearSets[i].(items := Filter(gearSets[i].items, x => x != id))];
        i := i + 1;
      }
    }

    /** `updateItemQuantity`: sets the quantity, negative ones included, on the first item with the id. */
    method UpdateItemQuantity(id: Id, quantity: int)
      modifies this`inventory
      ensures inventory == QuantitySet(old(inventory), id, quantity)
    {
      var index := FirstIndex(inventory, GearId, id);
      if index.Some? {
        var k := index.value;
        inventory := inventory[k := inventory[k].(quantity := quantity)];
      }
    }

    /** `addGearSet`: pushes the payload. */
    method AddGearSet(s: GearSet)
      modifies this`gearSets
      ensures gearSets == old(gearSets) + [s]
    {
      gearSets := gearSets + [s];
    }

    /** `updateGearSet`: replaces the first set with the payload's id; no-op when there is none. */
    method UpdateGearSet(s: GearSet)
      modifies this`gearSets
      ensures |gearSets| == |old(gearSets)|
      ensures match FirstIndex(old(gearSets), SetId, s.id)
              case None => gearSets == old(gearSets)
              case Some(k) => gearSets == old(gearSets)[k := s]
    {
      var index := FirstIndex(gearSets, SetId, s.id);
      if index.Some? {
        gearSets := gearSets[index.value := s];
      }
    }

    /** `deleteGearSet`: keeps the sets with another id; the inventory is untouched. */
    method DeleteGearSet(id: Id)
      modifies this`gearSets
      ensures gearSets == RemoveAll(old(gearSets), SetId, id)
      ensures inventory == old(inventory)
    {
      gearSets := RemoveAll(gearSets, SetId, id);
    }

    /** `updateMaintenanceDate`: sets the date on the first item with the id. */
    method UpdateMaintenanceDate(id: Id, date: Day)
      modifies this`inventory
      ensures inventory == MaintenanceSet(old(inventory), id, date)
    {
      var index := FirstIndex(inventory, GearId, id);
      if index.Some? {
        var k := index.value;
        inventory := inventory[k := inventory[k].(lastMaintenance := Some(date))];
      }
    }
  }
}
