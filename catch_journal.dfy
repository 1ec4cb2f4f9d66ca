/**
  The data logic of the catch-journal view: its four filters, the newest-first
  list, the distinct location and species lists, the chart data and the
  biggest-catch figure.
*/
module CatchJournal {
  import opened Wrappers
  import opened Seqs
  import opened Sorting
  import opened Keyed
  import opened Records
  import opened Calendar
  import opened Text
  import opened JournalService

  /** The view's filter fields; an empty date field is None. */
  datatype ViewFilters = ViewFilters(species: string, location: string, startDate: Option<Day>, endDate: Option<Day>)

  /** `clearFilters`: all four fields empty. */
  function ClearFilters(): (r: ViewFilters)
    ensures r.species == "" && r.location == "" && r.startDate.None? && r.endDate.None?
  {
    ViewFilters("", "", None, None)
  }

  /** The view's filter is the journal service's filter with no technique criterion. */
  function AsEntryFilters(f: ViewFilters): EntryFilters
  {
    EntryFilters(f.species, f.location, f.startDate, f.endDate, "")
  }

  /**
    `filteredEntries` before sorting: an entry stays iff every non-empty field
    holds, the dates inclusively.
  */
  function FilteredEntries(entries: seq<CatchEntry>, f: ViewFilters): (r: seq<CatchEntry>)
    ensures forall e :: e in r <==>
              (e in entries
               && (f.species == "" || IncludesIgnoringCase(e.species, f.species))
               && (f.location == "" || IncludesIgnoringCase(e.locationName, f.location))
               && (f.startDate.None? || f.startDate.value <= e.date)
               && (f.endDate.None? || e.date <= f.endDate.value))
    ensures Subseq(r, entries)
  {
    FilterEntries(entries, AsEntryFilters(f))
  }

  /** With the filters cleared every entry is listed. */
  lemma ClearedFiltersKeepAll(entries: seq<CatchEntry>)
    ensures FilteredEntries(entries, ClearFilters()) == entries
  {
    NoFiltersKeepAll(entries);
  }

  /** The sort key of `(a, b) => date(b) - date(a)`: ascending in it is newest first. */
  function NewestFirst(e: CatchEntry): int
  {
    -e.date
  }

  /** The comparator `(a, b) => date(b) - date(a)` read as "a may come before b". */
  predicate NewerOrSame(a: CatchEntry, b: CatchEntry)
  {
    a.date >= b.date
  }

  /**
    `filteredEntries` after its in-place sort: newest first, and exactly the
    filtered entries, each as often; entries of the same date keep their journal
    order, so the list is the stable sort of the filtered entries.
  */
  method DisplayedEntries(entries: seq<CatchEntry>, f: ViewFilters) returns (shown: seq<CatchEntry>)
    ensures forall k, l :: 0 <= k < l < |shown| ==> shown[k].date >= shown[l].date
    ensures multiset(shown) == multiset(FilteredEntries(entries, f))
    ensures forall e :: e in shown <==> e in FilteredEntries(entries, f)
    ensures Stable(shown, FilteredEntries(entries, f), NewestFirst)
    ensures shown == SortBy(FilteredEntries(entries, f), NewerOrSame)
  {
    var filtered := FilteredEntries(entries, f);
    var a := new CatchEntry[|filtered|](i requires 0 <= i < |filtered| => filtered[i]);
    assert a[..] == filtered;
    SortByKey(a, NewestFirst);
    shown := a[..];
    assert forall e :: e in shown <==> e in multiset(shown);
    assert forall k, l :: 0 <= k < l < |shown| ==> NewestFirst(shown[k]) <= NewestFirst(shown[l]);
    assert ComparesKeys(NewerOrSame, NewestFirst);
    SortedStableIsSortBy(shown, filtered, NewerOrSame, NewestFirst);
  }

  /** Two catches on the same day are listed in the order they were logged. */
  lemma SameDayKeepsOrder(a: CatchEntry, b: CatchEntry)
    requires a.date == b.date
    ensures SortBy(FilteredEntries([a, b], ClearFilters()), NewerOrSame) == [a, b]
  {
    ClearedFiltersKeepAll([a, b]);
    assert [a, b][1..] == [b];
    assert [b][1..] == [];
  }

  function LocationNames(entries: seq<CatchEntry>): (r: seq<string>)
    ensures forall x :: x in r <==> exists e :: e in entries && e.locationName == x
  {
    if entries == [] then [] else [entries[0].locationName] + LocationNames(entries[1..])
  }

  function SpeciesNames(entries: seq<CatchEntry>): (r: seq<string>)
    ensures |r| == |entries|
    ensures forall x :: x in r <==> exists e :: e in entries && e.species == x
  {
    if entries == [] then [] else [entries[0].species] + SpeciesNames(entries[1..])
  }

  /** `locations`: the location names of the journal, once each, in string order. */
  function Locations(entries: seq<CatchEntry>): seq<string>
  {
    SortBy(Distinct(LocationNames(entries)), StringLe)
  }

  /** `speciesNames`: the species of the journal, once each, in string order. */
  function SpeciesList(entries: seq<CatchEntry>): seq<string>
  {
    SortBy(Distinct(SpeciesNames(entries)), StringLe)
  }

  /**
    Both filter lists are in string order, have no duplicates, and hold exactly
    the values that occur in the journal.
  */
  lemma FilterListsSpec(entries: seq<CatchEntry>)
    ensures SortedBy(Locations(entries), StringLe) && NoDuplicates(Locations(entries))
    ensures forall x :: x in Locations(entries) <==> exists e :: e in entries && e.locationName == x
    ensures SortedBy(SpeciesList(entries), StringLe) && NoDuplicates(SpeciesList(entries))
    ensures forall x :: x in SpeciesList(entries) <==> exists e :: e in entries && e.species == x
  {
    SortedDistinct(LocationNames(entries));
    SortedDistinct(SpeciesNames(entries));
  }

  /**
    `speciesData`: one pair per species, in order of first appearance, with the
    number of entries of that species; the counts add up to the journal size.
  */
  method SpeciesData(entries: seq<CatchEntry>) returns (data: seq<(string, nat)>)
    ensures NoDuplicates(Keys(data))
    ensures forall x :: x in Keys(data) <==> exists e :: e in entries && e.species == x
    ensures Keys(data) == Distinct(SpeciesNames(entries))
    ensures forall i :: 0 <= i < |data| ==> data[i].1 == Occurrences(SpeciesNames(entries), data[i].0) > 0
    ensures Total(data) == |entries|
  {
    data := Tally(SpeciesNames(entries));
  }

  function Months(entries: seq<CatchEntry>): (r: seq<MonthKey>)
    ensures |r| == |entries|
    ensures forall m :: m in r <==> exists e :: e in entries && MonthOf(e.date) == m
  {
    if entries == [] then [] else [MonthOf(entries[0].date)] + Months(entries[1..])
  }

  /** The comparator `(a, b) => a.date.localeCompare(b.date)` on the month buckets. */
  predicate BucketLe(a: (MonthKey, nat), b: (MonthKey, nat))
  {
    MonthLe(a.0, b.0)
  }

  lemma BucketLeTotalPreorder()
    ensures TotalPreorder(BucketLe)
  {
    MonthLeTotalPreorder();
  }

  /** Sorting the month counts by month keeps every bucket, the months distinct, and the total. */
  lemma SortedBucketsContents(buckets: seq<(MonthKey, nat)>)
    requires NoDuplicates(Keys(buckets))
    ensures NoDuplicates(Keys(SortBy(buckets, BucketLe)))
    ensures forall m :: m in Keys(SortBy(buckets, BucketLe)) <==> m in Keys(buckets)
    ensures forall b :: b in SortBy(buckets, BucketLe) <==> b in buckets
    ensures Total(SortBy(buckets, BucketLe)) == Total(buckets)
  {
    var sorted := SortBy(buckets, BucketLe);
    SortPairs(buckets, BucketLe);
    NoDuplicatesPermutation(Keys(sorted), Keys(buckets));
    assert forall m :: m in Keys(sorted) <==> m in multiset(Keys(buckets));
    assert forall b :: b in sorted <==> b in multiset(buckets);
  }

  /** Sorted months with no month twice are strictly increasing. */
  lemma SortedBucketsOrder(buckets: seq<(MonthKey, nat)>)
    requires NoDuplicates(Keys(SortBy(buckets, BucketLe)))
    ensures forall i, j :: 0 <= i < j < |SortBy(buckets, BucketLe)| ==>
              MonthLe(SortBy(buckets, BucketLe)[i].0, SortBy(buckets, BucketLe)[j].0)
              && SortBy(buckets, BucketLe)[i].0 != SortBy(buckets, BucketLe)[j].0
  {
    var sorted := SortBy(buckets, BucketLe);
    BucketLeTotalPreorder();
    SortBySorted(buckets, BucketLe);
    forall i, j | 0 <= i < j < |sorted|
      ensures MonthLe(sorted[i].0, sorted[j].0) && sorted[i].0 != sorted[j].0
    {
      assert BucketLe(sorted[i], sorted[j]);
      assert Keys(sorted)[i] != Keys(sorted)[j];
    }
  }

  /**
    `timeData`: one bucket per month that has a catch, with its number of
    catches, in strictly increasing month order; the counts add up to the
    journal size.
  */
  method TimeData(entries: seq<CatchEntry>) returns (timeData: seq<(MonthKey, nat)>)
    ensures NoDuplicates(Keys(timeData))
    ensures forall m :: m in Keys(timeData) <==> exists e :: e in entries && MonthOf(e.date) == m
    ensures forall i :: 0 <= i < |timeData| ==> timeData[i].1 == Occurrences(Months(entries), timeData[i].0) > 0
    ensures forall i, j :: 0 <= i < j < |timeData| ==> MonthLe(timeData[i].0, timeData[j].0) && timeData[i].0 != timeData[j].0
    ensures Total(timeData) == |entries|
  {
    var buckets := Tally(Months(entries));
    SortedBucketsContents(buckets);
    SortedBucketsOrder(buckets);
    timeData := SortBy(buckets, BucketLe);
    forall i | 0 <= i < |timeData|
      ensures timeData[i].1 == Occurrences(Months(entries), timeData[i].0) > 0
    {
      assert timeData[i] in buckets;
      var k :| 0 <= k < |buckets| && buckets[k] == timeData[i];
    }
  }

  /**
    The largest truthy weight in the journal, or None where the view computes
    `Math.max()` of nothing.
  */
  function MaxWeight(entries: seq<CatchEntry>): (r: Option<real>)
    ensures r.None? <==> forall e :: e in entries ==> !Weighted(e)
    ensures r.Some? ==> exists e :: e in entries && Weighted(e) && e.weight.value == r.value
    ensures r.Some? ==> forall e :: e in entries && Weighted(e) ==> e.weight.value <= r.value
  {
    if entries == [] then None
    else
      var rest := MaxWeight(entries[1..]);
      assert forall e :: e in entries <==> e == entries[0] || e in entries[1..];
      if !Weighted(entries[0]) then rest
      else if rest.None? || rest.value < entries[0].weight.value then Some(entries[0].weight.value)
      else rest
  }

  /**
    The "Biggest Catch" figure, shown only for a non-empty journal: when the
    first entry is weighted it is the weight of the service's biggest catch; when
    it is unweighted the service reports that first entry while the view shows
    the largest weight of the others.
  */
  lemma BiggestShownSpec(entries: seq<CatchEntry>)
    requires entries != []
    ensures Weighted(entries[0]) ==> Weighted(Biggest(entries)) && MaxWeight(entries) == Some(Biggest(entries).weight.value)
    ensures !Weighted(entries[0]) ==> Biggest(entries) == entries[0] && MaxWeight(entries) == MaxWeight(entries[1..])
  {
    BiggestSpec(entries);
    if Weighted(entries[0]) {
      var r := Biggest(entries);
      var m := MaxWeight(entries).value;
      var e :| e in entries && Weighted(e) && e.weight.value == m;
      assert r.weight.value <= m && m <= r.weight.value;
    }
  }

  /** `handleDeleteEntry` after the confirmation dialog: exactly the entries with the id leave the list. */
  function DeleteEntry(entries: seq<CatchEntry>, id: Id, confirmed: bool): (r: seq<CatchEntry>)
    ensures !confirmed ==> r == entries
    ensures confirmed ==> forall e :: e in r <==> e in entries && e.id != id
    ensures confirmed ==> Subseq(r, entries)
  {
    if !confirmed then entries
    else
      RemoveAllSpec(entries, EntryId, id);
      RemoveAll(entries, EntryId, id)
  }
}
