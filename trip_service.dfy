/**
  The queries and record transformations of the trip service. The service loads
  the trip and location lists, computes a new list with one of these functions
  and saves it; the saving methods are in the `Storage` module.
*/
module TripService {
  import opened Wrappers
  import opened Seqs
  import opened Sorting
  import opened Keyed
  import opened Records

  /** `getTripById`: the first trip with the id, or None when no trip has it. */
  function TripById(trips: seq<Trip>, id: Id): (r: Option<Trip>)
    ensures r.None? <==> forall t :: t in trips ==> t.id != id
    ensures r.Some? ==> exists k :: 0 <= k < |trips| && trips[k] == r.value && r.value.id == id
                          && forall j :: 0 <= j < k ==> trips[j].id != id
  {
    Find(trips, TripId, id)
  }

  /** `getLocationById`: the first location with the id, or None. */
  function LocationById(locations: seq<Location>, id: Id): (r: Option<Location>)
    ensures r.None? <==> forall l :: l in locations ==> l.id != id
    ensures r.Some? ==> exists k :: 0 <= k < |locations| && locations[k] == r.value && r.value.id == id
                          && forall j :: 0 <= j < k ==> locations[j].id != id
  {
    Find(locations, LocationId, id)
  }

  /** The comparator `new Date(a.date).getTime() - new Date(b.date).getTime()`, as an order. */
  predicate DateLe(a: Trip, b: Trip)
  {
    a.date <= b.date
  }

  lemma DateLeTotalPreorder()
    ensures TotalPreorder(DateLe)
  {
  }

  /** A trip is upcoming when it is dated on or after the start of today. */
  predicate Upcoming(t: Trip, today: Day)
  {
    t.date >= today
  }

  /** `getUpcomingTrips`: the trips dated today or later, sorted by date. */
  function UpcomingTrips(trips: seq<Trip>, today: Day): seq<Trip>
  {
    SortBy(Filter(trips, t => Upcoming(t, today)), DateLe)
  }

  /**
    The upcoming trips are exactly the trips dated today or later, each as often
    as in the stored list, in ascending date order.
  */
  lemma UpcomingTripsSpec(trips: seq<Trip>, today: Day)
    ensures forall t :: multiset(UpcomingTrips(trips, today))[t]
                        == if t.date >= today then multiset(trips)[t] else 0
    ensures forall t :: t in UpcomingTrips(trips, today) <==> t in trips && t.date >= today
    ensures SortedBy(UpcomingTrips(trips, today), DateLe)
  {
    var r := UpcomingTrips(trips, today);
    var f := Filter(trips, t => Upcoming(t, today));
    FilterMultiset(trips, t => Upcoming(t, today));
    assert multiset(r) == multiset(f);
    forall t ensures t in r <==> t in f {
      assert t in r <==> multiset(r)[t] > 0;
      assert t in f <==> multiset(f)[t] > 0;
    }
    DateLeTotalPreorder();
    SortBySorted(f, DateLe);
  }

  /** The names of the checklist every new trip starts with, in order. */
  const DefaultChecklistNames: seq<string> :=
    ["Fishing rod", "Fishing reel", "Tackle box", "Extra line", "Lures/bait",
     "Fishing net", "Pliers", "Fishing license", "Sunscreen", "Hat",
     "Polarized sunglasses", "Water/drinks", "Snacks/food", "First aid kit",
     "Camera/phone"]

  /** The default checklist, each item under the fresh id given for it, all unchecked. */
  function DefaultChecklist(itemIds: seq<Id>): (r: seq<TripItem>)
    requires |itemIds| == |DefaultChecklistNames|
    ensures |r| == 15
    ensures forall i :: 0 <= i < |r| ==> r[i] == TripItem(itemIds[i], DefaultChecklistNames[i], false)
  {
    seq(|itemIds|, i requires 0 <= i < |itemIds| => TripItem(itemIds[i], DefaultChecklistNames[i], false))
  }

  /** The trip `addTrip` stores: the submitted fields, a fresh id and the default checklist. */
  function NewTrip(draft: Trip, id: Id, itemIds: seq<Id>): Trip
    requires |itemIds| == |DefaultChecklistNames|
  {
    draft.(id := id, checklist := DefaultChecklist(itemIds))
  }

  /** Whether a trip's location is the location with the id. */
  predicate RefersTo(t: Trip, locationId: Id)
  {
    t.location.Some? && t.location.value.id == locationId
  }

  /** The trip list after `deleteLocation`: trips at that location lose their location. */
  function DetachLocation(trips: seq<Trip>, locationId: Id): (r: seq<Trip>)
    ensures |r| == |trips|
  {
    seq(|trips|, i requires 0 <= i < |trips| =>
      if RefersTo(trips[i], locationId) then trips[i].(location := None) else trips[i])
  }

  /**
    After the cascade no trip refers to the location; exactly the trips that did
    have their location set to None, and every other trip is unchanged.
  */
  lemma DetachLocationSpec(trips: seq<Trip>, locationId: Id)
    ensures forall i :: 0 <= i < |trips| ==> !RefersTo(DetachLocation(trips, locationId)[i], locationId)
    ensures forall i :: 0 <= i < |trips| && RefersTo(trips[i], locationId) ==>
              DetachLocation(trips, locationId)[i] == trips[i].(location := None)
    ensures forall i :: 0 <= i < |trips| && !RefersTo(trips[i], locationId) ==>
              DetachLocation(trips, locationId)[i] == trips[i]
    ensures DetachLocation(DetachLocation(trips, locationId), locationId) == DetachLocation(trips, locationId)
  {
  }

  /** The position of the item `toggleChecklistItem` flips: the first trip with the id, then its first item with the id. */
  function ChecklistTarget(trips: seq<Trip>, tripId: Id, itemId: Id): (r: Option<(nat, nat)>)
    ensures r.Some? ==> r.value.0 < |trips| && r.value.1 < |trips[r.value.0].checklist|
  {
    match FirstIndex(trips, TripId, tripId)
    case None => None
    case Some(k) =>
      match FirstIndex(trips[k].checklist, TripItemId, itemId)
      case None => None
      case Some(j) => Some((k, j))
  }

  function Toggle(item: TripItem): TripItem
  {
    item.(checked := !item.checked)
  }

  function ToggleInTrip(t: Trip, itemId: Id): Trip
  {
    t.(checklist := UpdateFirst(t.checklist, TripItemId, itemId, Toggle))
  }

  /** The trip list after `toggleChecklistItem(tripId, itemId)`. */
  function ChecklistToggled(trips: seq<Trip>, tripId: Id, itemId: Id): seq<Trip>
  {
    UpdateFirst(trips, TripId, tripId, t => ToggleInTrip(t, itemId))
  }

  /**
    Toggling flips the `checked` flag of exactly the targeted item and changes
    nothing else; with no target (unknown trip or item) it changes nothing.
  */
  lemma ChecklistToggledSpec(trips: seq<Trip>, tripId: Id, itemId: Id)
    ensures ChecklistTarget(trips, tripId, itemId).None? ==> ChecklistToggled(trips, tripId, itemId) == trips
    ensures ChecklistTarget(trips, tripId, itemId).Some? ==>
              var (k, j) := ChecklistTarget(trips, tripId, itemId).value;
              var item := trips[k].checklist[j];
              ChecklistToggled(trips, tripId, itemId)
                == trips[k := trips[k].(checklist := trips[k].checklist[j := item.(checked := !item.checked)])]
  {
    match FirstIndex(trips, TripId, tripId)
    case None =>
    case Some(k) =>
      match FirstIndex(trips[k].checklist, TripItemId, itemId)
      case None =>
        assert ToggleInTrip(trips[k], itemId) == trips[k];
        assert trips[k := trips[k]] == trips;
      case Some(j) =>
  }

  /** Toggling the same item twice restores the trip list. */
  lemma {:induction false} ToggleTwice(trips: seq<Trip>, tripId: Id, itemId: Id)
    ensures ChecklistToggled(ChecklistToggled(trips, tripId, itemId), tripId, itemId) == trips
  {
    var f := (t: Trip) => ToggleInTrip(t, itemId);
    match FirstIndex(trips, TripId, tripId)
    case None =>
    case Some(k) =>
      UpdateFirstTwice(trips, TripId, tripId, f);
      var cl := trips[k].checklist;
      UpdateFirstTwice(cl, TripItemId, itemId, Toggle);
      match FirstIndex(cl, TripItemId, itemId)
      case None =>
        assert f(f(trips[k])) == trips[k];
        assert trips[k := trips[k]] == trips;
      case Some(j) =>
        assert Toggle(Toggle(cl[j])) == cl[j];
        assert cl[j := cl[j]] == cl;
        assert f(f(trips[k])) == trips[k];
        assert trips[k := trips[k]] == trips;
  }

  /** The trip list after `addChecklistItem`: the item is appended to the first trip with the id. */
  function ChecklistAdded(trips: seq<Trip>, tripId: Id, item: TripItem): seq<Trip>
  {
    UpdateFirst(trips, TripId, tripId, (t: Trip) => t.(checklist := t.checklist + [item]))
  }

  /** The trip list after `removeChecklistItem`: the first trip with the id loses every item with the item id. */
  function ChecklistRemoved(trips: seq<Trip>, tripId: Id, itemId: Id): seq<Trip>
  {
    UpdateFirst(trips, TripId, tripId, (t: Trip) => t.(checklist := RemoveAll(t.checklist, TripItemId, itemId)))
  }

  /**
    Adding then removing a fresh item restores the trip list; removing leaves the
    trip with no item of that id.
  */
  lemma ChecklistAddRemove(trips: seq<Trip>, tripId: Id, item: TripItem)
    requires forall k :: 0 <= k < |trips| ==> forall i :: i in trips[k].checklist ==> i.id != item.id
    ensures ChecklistRemoved(ChecklistAdded(trips, tripId, item), tripId, item.id) == trips
  {
    match FirstIndex(trips, TripId, tripId)
    case None =>
    case Some(k) =>
      var t := trips[k];
      var added := t.(checklist := t.checklist + [item]);
      assert ChecklistAdded(trips, tripId, item) == trips[k := added];
      FirstIndexAfterSet(trips, TripId, tripId, k, added);
      RemoveAllAbsent(t.checklist, TripItemId, item.id);
      RemoveAllAppend(t.checklist, [item], TripItemId, item.id);
      assert RemoveAll([item], TripItemId, item.id) == [];
      assert RemoveAll(added.checklist, TripItemId, item.id) == t.checklist;
      assert trips[k := added][k := t] == trips;
  }
}
