/** The data logic of the trip list view: the load-time sort, the upcoming/past/all filter and the local delete. */
module TripPlanner {
  import opened Seqs
  import opened Sorting
  import opened Keyed
  import opened Records
  import opened TripService

  /** The sort key of `(a, b) => date(a) - date(b)`. */
  function TripDate(t: Trip): int
  {
    t.date
  }

  /**
    The load step: the stored trips, sorted in place by ascending date. Trips of
    the same date keep their stored order, so the list is the stable sort of the
    stored trips.
  */
  method LoadTrips(stored: seq<Trip>) returns (trips: seq<Trip>)
    ensures SortedBy(trips, DateLe)
    ensures multiset(trips) == multiset(stored)
    ensures Stable(trips, stored, TripDate)
    ensures trips == SortBy(stored, DateLe)
  {
    var a := new Trip[|stored|](i requires 0 <= i < |stored| => stored[i]);
    assert a[..] == stored;
    SortByKey(a, TripDate);
    trips := a[..];
    assert forall k, l :: 0 <= k < l < |trips| ==> TripDate(trips[k]) <= TripDate(trips[l]);
    assert ComparesKeys(DateLe, TripDate);
    SortedStableIsSortBy(trips, stored, DateLe, TripDate);
  }

  /** The three tabs of the view. */
  datatype TripFilter = UpcomingTab | PastTab | AllTab

  predicate Passes(t: Trip, f: TripFilter, today: Day)
  {
    match f
    case UpcomingTab => Upcoming(t, today)
    case PastTab => t.date < today
    case AllTab => true
  }

  /** `filteredTrips`: dated on or after the start of today, before it, or every trip. */
  function FilteredTrips(trips: seq<Trip>, f: TripFilter, today: Day): (r: seq<Trip>)
    ensures forall t :: t in r <==> t in trips && (f.UpcomingTab? ==> t.date >= today) && (f.PastTab? ==> t.date < today)
    ensures Subseq(r, trips)
  {
    Filter(trips, (t: Trip) => Passes(t, f, today))
  }

  /**
    The upcoming and past tabs split the list: no trip is in both, together they
    hold every trip as often as the list does, and 'all' is the list itself.
  */
  lemma TabsPartition(trips: seq<Trip>, today: Day)
    ensures forall t :: !(t in FilteredTrips(trips, UpcomingTab, today) && t in FilteredTrips(trips, PastTab, today))
    ensures multiset(FilteredTrips(trips, UpcomingTab, today)) + multiset(FilteredTrips(trips, PastTab, today))
            == multiset(trips)
    ensures FilteredTrips(trips, AllTab, today) == trips
  {
    FilterMultiset(trips, (t: Trip) => Passes(t, UpcomingTab, today));
    FilterMultiset(trips, (t: Trip) => Passes(t, PastTab, today));
    var u, p := FilteredTrips(trips, UpcomingTab, today), FilteredTrips(trips, PastTab, today);
    assert forall t :: (multiset(u) + multiset(p))[t] == multiset(trips)[t];
    FilterKeepsAll(trips, (t: Trip) => Passes(t, AllTab, today));
  }

  /** Every tab of a date-sorted list is date-sorted. */
  lemma TabsStaySorted(trips: seq<Trip>, f: TripFilter, today: Day)
    requires SortedBy(trips, DateLe)
    ensures SortedBy(FilteredTrips(trips, f, today), DateLe)
  {
    SubseqSorted(FilteredTrips(trips, f, today), trips, DateLe);
  }

  /**
    After loading, the upcoming tab holds the same trips, each as often, as the
    service's upcoming query, and both are in date order.
  */
  lemma UpcomingTabAgrees(stored: seq<Trip>, loaded: seq<Trip>, today: Day)
    requires multiset(loaded) == multiset(stored) && SortedBy(loaded, DateLe)
    ensures multiset(FilteredTrips(loaded, UpcomingTab, today)) == multiset(UpcomingTrips(stored, today))
    ensures SortedBy(FilteredTrips(loaded, UpcomingTab, today), DateLe) && SortedBy(UpcomingTrips(stored, today), DateLe)
  {
    FilterMultiset(loaded, (t: Trip) => Passes(t, UpcomingTab, today));
    UpcomingTripsSpec(stored, today);
    TabsStaySorted(loaded, UpcomingTab, today);
    var a, b := FilteredTrips(loaded, UpcomingTab, today), UpcomingTrips(stored, today);
    assert forall t :: multiset(a)[t] == multiset(b)[t];
  }

  /**
    After loading, the upcoming tab is exactly the service's upcoming list: the
    same trips in the same order, ties included.
  */
  lemma UpcomingTabIsService(stored: seq<Trip>, today: Day)
    ensures FilteredTrips(SortBy(stored, DateLe), UpcomingTab, today) == UpcomingTrips(stored, today)
  {
    var loaded := SortBy(stored, DateLe);
    var tab := (t: Trip) => Passes(t, UpcomingTab, today);
    assert ComparesKeys(DateLe, TripDate);
    SortByStable(stored, DateLe, TripDate);
    FilterStable(loaded, stored, TripDate, tab);
    FilterExt(stored, tab, t => Upcoming(t, today));
    DateLeTotalPreorder();
    SortBySorted(stored, DateLe);
    TabsStaySorted(loaded, UpcomingTab, today);
    var shown := FilteredTrips(loaded, UpcomingTab, today);
    assert KeySorted(shown, TripDate);
    SortedStableIsSortBy(shown, Filter(stored, t => Upcoming(t, today)), DateLe, TripDate);
  }

  /** The delete button after the confirmation dialog: exactly the trips with the id leave the list. */
  function DeleteTrip(trips: seq<Trip>, id: Id, confirmed: bool): (r: seq<Trip>)
    ensures !confirmed ==> r == trips
    ensures confirmed ==> forall t :: t in r <==> t in trips && t.id != id
    ensures confirmed ==> Subseq(r, trips)
  {
    if !confirmed then trips
    else
      RemoveAllSpec(trips, TripId, id);
      RemoveAll(trips, TripId, id)
  }
}
