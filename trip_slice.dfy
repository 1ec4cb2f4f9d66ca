/**
  The trips reducer: the state draft is an object whose fields the reducers
  assign in place.
*/
module TripSlice {
  import opened Wrappers
  import opened Keyed
  import opened Records
  import opened TripService

  class TripState {
    var trips: seq<Trip>
    var savedLocations: seq<Location>
    var currentTrip: Option<Trip>
    var loading: bool
    var error: Option<string>

    /** The initial state: no trips, no locations, no current trip, not loading, no error. */
    constructor ()
      ensures trips == [] && savedLocations == [] && currentTrip == None
      ensures !loading && error == None
    {
      trips, savedLocations, currentTrip, loading, error := [], [], None, false, None;
    }

    /** `addTrip`: pushes the payload. */
    method AddTrip(t: Trip)
      modifies this`trips
      ensures trips == old(trips) + [t]
    {
      trips := trips + [t];
    }

    /** `updateTrip`: replaces the first trip with the payload's id; no-op when there is none. */
    method UpdateTrip(t: Trip)
      modifies this`trips
      ensures |trips| == |old(trips)|
      ensures match FirstIndex(old(trips), TripId, t.id)
              case None => trips == old(trips)
              case Some(k) => trips == old(trips)[k := t]
    {
      var index := FirstIndex(trips, TripId, t.id);
      if index.Some? {
        trips := trips[index.value := t];
      }
    }

    /** `deleteTrip`: keeps the trips with another id. */
    method DeleteTrip(id: Id)
      modifies this`trips
      ensures trips == RemoveAll(old(trips), TripId, id)
    {
      trips := RemoveAll(trips, TripId, id);
    }

    /** `setCurrentTrip`: the first trip with the id, or null. */
    method SetCurrentTrip(id: Id)
      modifies this`currentTrip
      ensures currentTrip == TripById(trips, id)
    {
      currentTrip := Find(trips, TripId, id);
    }

    /** `addLocation`: pushes the payload. */
    method AddLocation(l: Location)
      modifies this`savedLocations
      ensures savedLocations == old(savedLocations) + [l]
    {
      savedLocations := savedLocations + [l];
    }

    /**
      `removeLocation`: drops the saved location only. Unlike the service's
      `deleteLocation`, trips that refer to it keep it, and so refer to a location
      that is no longer saved.
    */
    method RemoveLocation(id: Id)
      modifies this`savedLocations
      ensures savedLocations == RemoveAll(old(savedLocations), LocationId, id)
      ensures trips == old(trips)
      ensures forall t :: t in trips && RefersTo(t, id) ==> LocationById(savedLocations, id) == None
    {
      savedLocations := RemoveAll(savedLocations, LocationId, id);
      RemoveAllSpec(old(savedLocations), LocationId, id);
    }

    /** `toggleChecklistItem`: flips the targeted item in place; no-op for an unknown trip or item. */
    method ToggleChecklistItem(tripId: Id, itemId: Id)
      modifies this`trips
      ensures trips == ChecklistToggled(old(trips), tripId, itemId)
    {
      ChecklistToggledSpec(trips, tripId, itemId);
      var tripIndex := FirstIndex(trips, TripId, tripId);
      if tripIndex.Some? {
        var k := tripIndex.value;
        var itemIndex := FirstIndex(trips[k].checklist, TripItemId, itemId);
        if itemIndex.Some? {
          var j := itemIndex.value;
          var item := trips[k].checklist[j];
          trips := trips[k := trips[k].(checklist := trips[k].checklist[j := item.(checked := !item.checked)])];
        }
      }
    }
  }
}
