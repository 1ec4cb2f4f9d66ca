/**
  The queries and statistics of the catch-journal service. The saving methods
  (add, update, delete) are in the `Storage` module.
*/
module JournalService {
  import opened Wrappers
  import opened Seqs
  import opened Keyed
  import opened Records
  import opened Text

  /** `getEntryById`: the first entry with the id, or None. */
  function EntryById(entries: seq<CatchEntry>, id: Id): (r: Option<CatchEntry>)
    ensures r.None? <==> forall e :: e in entries ==> e.id != id
    ensures r.Some? ==> exists k :: 0 <= k < |entries| && entries[k] == r.value && r.value.id == id
                          && forall j :: 0 <= j < k ==> entries[j].id != id
  {
    Find(entries, EntryId, id)
  }

  /**
    The criteria of `filterEntries`. A criterion that is undefined or the empty
    string is falsy and imposes nothing; here that is "" or None.
  */
  datatype EntryFilters = EntryFilters(species: string, location: string,
                                       startDate: Option<Day>, endDate: Option<Day>,
                                       technique: string)

  const NoFilters: EntryFilters := EntryFilters("", "", None, None, "")

  /** The `match` accumulator: every given criterion holds. */
  predicate Matches(e: CatchEntry, f: EntryFilters)
  {
    (f.species == "" || IncludesIgnoringCase(e.species, f.species))
    && (f.location == "" || IncludesIgnoringCase(e.locationName, f.location))
    && (f.technique == "" || IncludesIgnoringCase(e.technique, f.technique))
    && (f.startDate.None? || e.date >= f.startDate.value)
    && (f.endDate.None? || e.date <= f.endDate.value)
  }

  /** `filterEntries`: the entries meeting every given criterion, in journal order. */
  function FilterEntries(entries: seq<CatchEntry>, f: EntryFilters): (r: seq<CatchEntry>)
    ensures forall e :: e in r <==> e in entries && Matches(e, f)
    ensures Subseq(r, entries)
  {
    Filter(entries, (e: CatchEntry) => Matches(e, f))
  }

  /** With no criterion given, every entry is returned, in order. */
  lemma NoFiltersKeepAll(entries: seq<CatchEntry>)
    ensures FilterEntries(entries, NoFilters) == entries
  {
    var f := NoFilters;
    forall e | e in entries ensures Matches(e, f) {
    }
    FilterKeepsAll(entries, (e: CatchEntry) => Matches(e, f));
  }

  /** The result of `getStats`. */
  datatype Stats = Stats(totalCatches: nat, speciesCount: nat, locations: nat,
                         biggestCatch: Option<CatchEntry>)

  /** `entry.weight` is truthy: present and non-zero. */
  predicate Weighted(e: CatchEntry)
  {
    e.weight.Some? && e.weight.value != 0.0
  }

  /** One step of the biggest-catch loop: a strictly heavier entry replaces a weighted current one. */
  function Heavier(biggest: CatchEntry, e: CatchEntry): CatchEntry
  {
    if Weighted(e) && Weighted(biggest) && e.weight.value > biggest.weight.value then e else biggest
  }

  /** The loop run from `biggest` over `s`. */
  function BiggestFrom(biggest: CatchEntry, s: seq<CatchEntry>): CatchEntry
    decreases |s|
  {
    if s == [] then biggest else BiggestFrom(Heavier(biggest, s[0]), s[1..])
  }

  /** The biggest catch as `getStats` computes it: the loop started at the first entry. */
  function Biggest(entries: seq<CatchEntry>): CatchEntry
    requires entries != []
  {
    BiggestFrom(entries[0], entries)
  }

  function SpeciesOf(e: CatchEntry): string { e.species }
  function LocationNameOf(e: CatchEntry): string { e.locationName }

  /**
    `getStats` over the stored entries: the entry count, the numbers of distinct
    species and location names, and the biggest catch.
  */
  method GetStats(entries: seq<CatchEntry>) returns (st: Stats)
    ensures entries == [] ==> st == Stats(0, 0, 0, None)
    ensures st.totalCatches == |entries|
    ensures st.speciesCount == |Image(entries, SpeciesOf)|
    ensures st.locations == |Image(entries, LocationNameOf)|
    ensures entries != [] ==> 1 <= st.speciesCount <= st.totalCatches && 1 <= st.locations <= st.totalCatches
    ensures st.biggestCatch == if entries == [] then None else Some(Biggest(entries))
  {
    if |entries| == 0 {
      return Stats(0, 0, 0, None);
    }
    var uniqueSpecies := Image(entries, SpeciesOf);
    var uniqueLocations := Image(entries, LocationNameOf);
    ImageCardBounds(entries, SpeciesOf);
    ImageCardBounds(entries, LocationNameOf);
    var biggest := entries[0];
    for i := 0 to |entries|
      invariant BiggestFrom(biggest, entries[i..]) == Biggest(entries)
    {
      assert entries[i..][1..] == entries[i + 1..];
      biggest := Heavier(biggest, entries[i]);
    }
    st := Stats(|entries|, |uniqueSpecies|, |uniqueLocations|, Some(biggest));
  }

  /** The loop's result is its start or one of the entries it visits. */
  lemma {:induction false} BiggestFromIn(biggest: CatchEntry, s: seq<CatchEntry>)
    ensures BiggestFrom(biggest, s) == biggest || BiggestFrom(biggest, s) in s
    decreases |s|
  {
    if s != [] {
      BiggestFromIn(Heavier(biggest, s[0]), s[1..]);
    }
  }

  /** An unweighted start is never replaced. */
  lemma {:induction false} BiggestFromUnweighted(biggest: CatchEntry, s: seq<CatchEntry>)
    requires !Weighted(biggest)
    ensures BiggestFrom(biggest, s) == biggest
    decreases |s|
  {
    if s != [] {
      BiggestFromUnweighted(Heavier(biggest, s[0]), s[1..]);
    }
  }

  /**
    From a weighted start, the loop returns a weighted entry at least as heavy as
    every weighted entry visited: the start itself when none is strictly heavier,
    and otherwise the first visited entry of the largest weight.
  */
  lemma {:induction false} BiggestFromWeighted(biggest: CatchEntry, s: seq<CatchEntry>)
    requires Weighted(biggest)
    ensures var r := BiggestFrom(biggest, s);
      Weighted(r) && r.weight.value >= biggest.weight.value
      && (forall e :: e in s && Weighted(e) ==> e.weight.value <= r.weight.value)
      && (r == biggest ||
          exists k :: 0 <= k < |s| && s[k] == r && biggest.weight.value < r.weight.value
                      && forall j :: 0 <= j < k && Weighted(s[j]) ==> s[j].weight.value < r.weight.value)
    decreases |s|
  {
    if s != [] {
      var next := Heavier(biggest, s[0]);
      BiggestFromWeighted(next, s[1..]);
      var r := BiggestFrom(biggest, s);
      assert r == BiggestFrom(next, s[1..]);
      forall e | e in s && Weighted(e) ensures e.weight.value <= r.weight.value {
        if e != s[0] {
          assert e in s[1..];
        }
      }
      if r != biggest {
        if r == next {
          assert next == s[0];
          assert s[0] == r && biggest.weight.value < r.weight.value;
        } else {
          var k :| 0 <= k < |s[1..]| && s[1..][k] == r && next.weight.value < r.weight.value
                   && forall j :: 0 <= j < k && Weighted(s[1..][j]) ==> s[1..][j].weight.value < r.weight.value;
          assert s[k + 1] == r;
          forall j | 0 <= j < k + 1 && Weighted(s[j]) ensures s[j].weight.value < r.weight.value {
            if j > 0 {
              assert s[j] == s[1..][j - 1];
            }
          }
        }
      }
    }
  }

  /**
    The biggest catch is one of the entries. When the first entry is unweighted it
    is always the result; when it is weighted the result is the first entry of the
    largest weight.
  */
  lemma BiggestSpec(entries: seq<CatchEntry>)
    requires entries != []
    ensures Biggest(entries) in entries
    ensures !Weighted(entries[0]) ==> Biggest(entries) == entries[0]
    ensures Weighted(entries[0]) ==>
              var r := Biggest(entries);
              Weighted(r) && (forall e :: e in entries && Weighted(e) ==> e.weight.value <= r.weight.value)
              && exists k :: 0 <= k < |entries| && entries[k] == r
                             && forall j :: 0 <= j < k && Weighted(entries[j]) ==> entries[j].weight.value < r.weight.value
  {
    BiggestFromIn(entries[0], entries);
    if !Weighted(entries[0]) {
      BiggestFromUnweighted(entries[0], entries);
    } else {
      BiggestFromWeighted(entries[0], entries);
      var r := Biggest(entries);
      if r == entries[0] {
        assert entries[0] == r;
      }
    }
  }
}
