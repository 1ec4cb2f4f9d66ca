/**
  The local-storage lists as one object with a field per storage key, and the
  service operations that load a list, change it and save it back. Reading a
  list is reading its field; the queries on a loaded list are the functions of
  the service modules. Fresh ids (random or clock-based in the app) are
  parameters that no stored record has yet.
*/
module Storage {
  import opened Wrappers
  import opened Keyed
  import opened Records
  import opened TripService
  import opened GearService
  import opened FishService

  class Store {
    /** fishing_companion_trips */
    var trips: seq<Trip>
    /** fishing_companion_locations */
    var locations: seq<Location>
    /** fishing_companion_gear */
    var gear: seq<GearItem>
    /** fishing_companion_gear_sets */
    var gearSets: seq<GearSet>
    /** fishing_companion_journal */
    var journal: seq<CatchEntry>
    /** fishing_companion_species */
    var species: seq<FishSpecies>

    /** Nothing stored yet: every load falls back to []. */
    constructor ()
      ensures trips == [] && locations == [] && gear == [] && gearSets == []
      ensures journal == [] && species == []
    {
      trips, locations, gear, gearSets, journal, species := [], [], [], [], [], [];
    }

    // ---- tripService ----

    /** `addTrip`: appends the trip with a fresh id and the default checklist, and returns it. */
    method AddTrip(draft: Trip, id: Id, itemIds: seq<Id>) returns (t: Trip)
      requires |itemIds| == |DefaultChecklistNames|
      requires forall u :: u in trips ==> u.id != id
      modifies this`trips
      ensures t.id == id && t.name == draft.name && t.location == draft.location
      ensures t.date == draft.date && t.notes == draft.notes
      ensures |t.checklist| == 15
      ensures forall i :: 0 <= i < 15 ==> t.checklist[i] == TripItem(itemIds[i], DefaultChecklistNames[i], false)
      ensures trips == old(trips) + [t]
      ensures TripById(trips, id) == Some(t)
    {
      var checklist := DefaultChecklist(itemIds);
      t := draft.(id := id, checklist := checklist);
      FindAppendedFresh(trips, TripId, t);
      trips := trips + [t];
    }

    /** `updateTrip`: replaces the first trip with the same id; no-op when there is none. */
    method UpdateTrip(t: Trip)
      modifies this`trips
      ensures |trips| == |old(trips)|
      ensures match FirstIndex(old(trips), TripId, t.id)
              case None => trips == old(trips)
              case Some(k) => trips == old(trips)[k := t]
    {
      var index := FirstIndex(trips, TripId, t.id);
      if index.Some? {
        trips := trips[index.value := t];
      }
    }

    /** `deleteTrip`: keeps the trips with another id. */
    method DeleteTrip(id: Id)
      modifies this`trips
      ensures trips == RemoveAll(old(trips), TripId, id)
    {
      trips := RemoveAll(trips, TripId, id);
    }

    /** `addLocation`: appends the location under a fresh id and returns it. */
    method AddLocation(draft: Location, id: Id) returns (l: Location)
      requires forall u :: u in locations ==> u.id != id
      modifies this`locations
      ensures l == draft.(id := id)
      ensures locations == old(locations) + [l]
      ensures LocationById(locations, id) == Some(l)
    {
      l := draft.(id := id);
      FindAppendedFresh(locations, LocationId, l);
      locations := locations + [l];
    }

    /** `updateLocation`: replaces the first location with the same id; no-op when there is none. */
    method UpdateLocation(l: Location)
      modifies this`locations
      ensures |locations| == |old(locations)|
      ensures match FirstIndex(old(locations), LocationId, l.id)
              case None => locations == old(locations)
              case Some(k) => locations == old(locations)[k := l]
    {
      var index := FirstIndex(locations, LocationId, l.id);
      if index.Some? {
        locations := locations[index.value := l];
      }
    }

    /** `deleteLocation`: drops the location and clears it from the trips planned there. */
    method DeleteLocation(id: Id)
      modifies this`locations, this`trips
      ensures locations == RemoveAll(old(locations), LocationId, id)
      ensures trips == DetachLocation(old(trips), id)
    {
      locations := RemoveAll(locations, LocationId, id);
      trips := DetachLocation(trips, id);
    }

    /** `addChecklistItem`: appends an unchecked item to the first trip with the id; None for an unknown trip. */
    method AddChecklistItem(tripId: Id, name: string, itemId: Id) returns (r: Option<TripItem>)
      requires forall k :: 0 <= k < |trips| ==> forall i :: i in trips[k].checklist ==> i.id != itemId
      modifies this`trips
      ensures FirstIndex(old(trips), TripId, tripId).None? ==> r == None && trips == old(trips)
      ensures FirstIndex(old(trips), TripId, tripId).Some? ==>
                r == Some(TripItem(itemId, name, false)) && trips == ChecklistAdded(old(trips), tripId, r.value)
    {
      var tripIndex := FirstIndex(trips, TripId, tripId);
      if tripIndex.None? {
        return None;
      }
      var k := tripIndex.value;
      var item := TripItem(itemId, name, false);
      trips := trips[k := trips[k].(checklist := trips[k].checklist + [item])];
      r := Some(item);
    }

    /** `removeChecklistItem`: drops every item with the id from the first trip with the trip id. */
    method RemoveChecklistItem(tripId: Id, itemId: Id)
      modifies this`trips
      ensures trips == ChecklistRemoved(old(trips), tripId, itemId)
    {
      var tripIndex := FirstIndex(trips, TripId, tripId);
      if tripIndex.None? {
        return;
      }
      var k := tripIndex.value;
      trips := trips[k := trips[k].(checklist := RemoveAll(trips[k].checklist, TripItemId, itemId))];
    }

    /**
      `toggleChecklistItem`: flips the targeted item and returns its new flag;
      None, with nothing changed, for an unknown trip or item.
    */
    method ToggleChecklistItem(tripId: Id, itemId: Id) returns (r: Option<bool>)
      modifies this`trips
      ensures trips == ChecklistToggled(old(trips), tripId, itemId)
      ensures r.None? <==> ChecklistTarget(old(trips), tripId, itemId).None?
      ensures r.Some? ==>
                var (k, j) := ChecklistTarget(old(trips), tripId, itemId).value;
                r.value == !old(trips)[k].checklist[j].checked && r.value == trips[k].checklist[j].checked
    {
      ChecklistToggledSpec(trips, tripId, itemId);
      var tripIndex := FirstIndex(trips, TripId, tripId);
      if tripIndex.None? {
        return None;
      }
      var k := tripIndex.value;
      var itemIndex := FirstIndex(trips[k].checklist, TripItemId, itemId);
      if itemIndex.None? {
        return None;
      }
      var j := itemIndex.value;
      var item := trips[k].checklist[j];
      var flipped := item.(checked := !item.checked);
      trips := trips[k := trips[k].(checklist := trips[k].checklist[j := flipped])];
      r := Some(flipped.checked);
    }

    // ---- gearService ----

    /** `addGearItem`: appends the item under a fresh id and returns it. */
    method AddGearItem(draft: GearItem, id: Id) returns (g: GearItem)
      requires forall u :: u in gear ==> u.id != id
      modifies this`gear
      ensures g == draft.(id := id)
      ensures gear == old(gear) + [g]
      ensures GearById(gear, id) == Some(g)
    {
      g := draft.(id := id);
      FindAppendedFresh(gear, GearId, g);
      gear := gear + [g];
    }

    /** `updateGearItem`: replaces the first item with the same id; no-op when there is none. */
    method UpdateGearItem(g: GearItem)
      modifies this`gear
      ensures |gear| == |old(gear)|
      ensures match FirstIndex(old(gear), GearId, g.id)
              case None => gear == old(gear)
              case Some(k) => gear == old(gear)[k := g]
    {
      var index := FirstIndex(gear, GearId, g.id);
      if index.Some? {
        gear := gear[index.value := g];
      }
    }

    /** `deleteGearItem`: drops the item and removes its id from every gear set. */
    method DeleteGearItem(id: Id)
      modifies this`gear, this`gearSets
      ensures gear == RemoveAll(old(gear), GearId, id)
      ensures gearSets == PruneSets(old(gearSets), id)
    {
      gear := RemoveAll(gear, GearId, id);
      gearSets := PruneSets(gearSets, id);
    }

    /** `addGearSet`: appends the set under a fresh id and returns it. */
    method AddGearSet(draft: GearSet, id: Id) returns (s: GearSet)
      requires forall u :: u in gearSets ==> u.id != id
      modifies this`gearSets
      ensures s == draft.(id := id)
      ensures gearSets == old(gearSets) + [s]
      ensures GearSetById(gearSets, id) == Some(s)
    {
      s := draft.(id := id);
      FindAppendedFresh(gearSets, SetId, s);
      gearSets := gearSets + [s];
    }

    /** `updateGearSet`: replaces the first set with the same id; no-op when there is none. */
    method UpdateGearSet(s: GearSet)
      modifies this`gearSets
      ensures |gearSets| == |old(gearSets)|
      ensures match FirstIndex(old(gearSets), SetId, s.id)
              case None => gearSets == old(gearSets)
              case Some(k) => gearSets == old(gearSets)[k := s]
    {
      var index := FirstIndex(gearSets, SetId, s.id);
      if index.Some? {
        gearSets := gearSets[index.value := s];
      }
    }

    /** `deleteGearSet`: keeps the sets with another id. */
    method DeleteGearSet(id: Id)
      modifies this`gearSets
      ensures gearSets == RemoveAll(old(gearSets), SetId, id)
    {
      gearSets := RemoveAll(gearSets, SetId, id);
    }

    /** `updateMaintenanceDate`: sets the date on the first item with the id. */
    method UpdateMaintenanceDate(id: Id, date: Day)
      modifies this`gear
      ensures gear == MaintenanceSet(old(gear), id, date)
    {
      var index := FirstIndex(gear, GearId, id);
      if index.Some? {
        var k := index.value;
        gear := gear[k := gear[k].(lastMaintenance := Some(date))];
      }
    }

    /** `updateItemQuantity`: sets the quantity, unchecked, on the first item with the id. */
    method UpdateItemQuantity(id: Id, quantity: int)
      modifies this`gear
      ensures gear == QuantitySet(old(gear), id, quantity)
    {
      var index := FirstIndex(gear, GearId, id);
      if index.Some? {
        var k := index.value;
        gear := gear[k := gear[k].(quantity := quantity)];
      }
    }

    // ---- journalService ----

    /** `addEntry`: appends the entry under a fresh id and returns it. */
    method AddEntry(draft: CatchEntry, id: Id) returns (e: CatchEntry)
      requires forall u :: u in journal ==> u.id != id
      modifies this`journal
      ensures e == draft.(id := id)
      ensures journal == old(journal) + [e]
      ensures Find(journal, EntryId, id) == Some(e)
    {
      e := draft.(id := id);
      FindAppendedFresh(journal, EntryId, e);
      journal := journal + [e];
    }

    /** `updateEntry`: replaces the first entry with the same id; no-op when there is none. */
    method UpdateEntry(e: CatchEntry)
      modifies this`journal
      ensures |journal| == |old(journal)|
      ensures match FirstIndex(old(journal), EntryId, e.id)
              case None => journal == old(journal)
              case Some(k) => journal == old(journal)[k := e]
    {
      var index := FirstIndex(journal, EntryId, e.id);
      if index.Some? {
        journal := journal[index.value := e];
      }
    }

    /** `deleteEntry`: keeps the entries with another id. */
    method DeleteEntry(id: Id)
      modifies this`journal
      ensures journal == RemoveAll(old(journal), EntryId, id)
    {
      journal := RemoveAll(journal, EntryId, id);
    }

    // ---- fishService ----

    /** `initFishSpecies`: seeds the samples into an empty list and returns the list. */
    method InitFishSpecies() returns (r: seq<FishSpecies>)
      modifies this`species
      ensures r == species == Seeded(old(species))
    {
      if |species| == 0 {
        species := SampleSpecies;
        return SampleSpecies;
      }
      r := species;
    }

    /** `addSpecies`: appends the species under a fresh id and returns it. */
    method AddSpecies(draft: FishSpecies, id: Id) returns (s: FishSpecies)
      requires forall u :: u in species ==> u.id != id
      modifies this`species
      ensures s == draft.(id := id)
      ensures species == old(species) + [s]
      ensures SpeciesById(species, id) == Some(s)
    {
      s := draft.(id := id);
      FindAppendedFresh(species, SpeciesId, s);
      species := species + [s];
    }

    /** `updateSpecies`: replaces the first species with the same id; no-op when there is none. */
    method UpdateSpecies(s: FishSpecies)
      modifies this`species
      ensures |species| == |old(species)|
      ensures match FirstIndex(old(species), SpeciesId, s.id)
              case None => species == old(species)
              case Some(k) => species == old(species)[k := s]
    {
      var index := FirstIndex(species, SpeciesId, s.id);
      if index.Some? {
        species := species[index.value := s];
      }
    }

    /** `deleteSpecies`: keeps the species with another id. */
    method DeleteSpecies(id: Id)
      modifies this`species
      ensures species == RemoveAll(old(species), SpeciesId, id)
    {
      species := RemoveAll(species, SpeciesId, id);
    }
  }
}
