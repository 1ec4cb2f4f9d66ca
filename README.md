# Fishing companion: verified model of the app's data logic

A model of the browser app's data layer and the data logic of its main views:

- the five services (`tripService`, `gearService`, `journalService`, `fishService`, `weatherService`), which keep their records under local-storage keys;
- the helpers (fishing-score colour, moon-phase name);
- the four Redux slices (trip, gear, fish, weather);
- the computations of the `GearManager`, `CatchJournal`, `FishDatabase`, `TripPlanner`, `MaintenanceReminders` and `WeatherForecast` views.

The model is organised like the app.

- **Storage.** `Storage.Store` is one object with one sequence field per storage key. Every service write is a method on it that states the new contents of the key it writes.
- **Pure service queries**, such as lookups, filters, the upcoming-trip list and the fishing score, are functions over the loaded sequence.
- **Slices.** Each slice is a class with the slice's fields. Each reducer is a method stating the new state.
- **Views.** Each view's derived data is a function of its inputs (or a method where the view sorts an array in place), and lemmas relate each one to the service it mirrors.

Conventions:

- Record ids are passed in by the caller, with a precondition that the id is not already in use.
- Calendar dates are day numbers counted from 1 January 1970, and "now" is an instant in milliseconds. `Calendar` converts between them.
- Strings are sequences of characters. Case-insensitive matching lower-cases ASCII letters.
- The text of the "Below Average" rating follows the code.

## Model

| member | source | states |
|---|---|---|
| TripService.TripById | frontend/src/services/tripService.ts:35-38 | None exactly when no trip has the id; otherwise the first trip with that id |
| TripService.UpcomingTripsSpec | frontend/src/services/tripService.ts:41-50 | the upcoming list holds exactly the trips dated today or later, each as often as stored, in ascending date order |
| TripService.DateLeTotalPreorder | frontend/src/services/tripService.ts:49 | the date comparator used for the upcoming list is total and transitive |
| TripService.DefaultChecklist | frontend/src/services/tripService.ts:9-25 | a new trip's checklist is the fifteen default items, in order, all unchecked, with the given ids |
| TripService.LocationById | frontend/src/services/tripService.ts:95-98 | None exactly when no saved location has the id; otherwise the first one with it |
| TripService.DetachLocationSpec | frontend/src/services/tripService.ts:125-139 | after deleting a location, no trip refers to it; trips that referred to it lose only their location; the others are unchanged; detaching twice is detaching once |
| TripService.ChecklistToggledSpec | frontend/src/services/tripService.ts:175-194 | toggling flips exactly the `checked` flag of the first matching item of the first matching trip, and is a no-op when either is missing |
| TripService.ToggleTwice | frontend/src/services/tripService.ts:175-194 | toggling the same item twice restores every trip |
| TripService.ChecklistAddRemove | frontend/src/services/tripService.ts:142-172 | adding an item with a fresh id and then removing it restores every trip |
| Storage.Store.AddTrip | frontend/src/services/tripService.ts:53-70 | the new trip has the draft's fields, the id and the default checklist; it is appended, and a lookup by its id finds it |
| Storage.Store.UpdateTrip | frontend/src/services/tripService.ts:73-81 | the first trip with the id is replaced; the list is unchanged when there is none |
| Storage.Store.DeleteTrip | frontend/src/services/tripService.ts:84-87 | every trip with the id is removed and the others keep their order |
| Storage.Store.AddLocation | frontend/src/services/tripService.ts:101-111 | the draft with its new id is appended, and a lookup by that id finds it |
| Storage.Store.UpdateLocation | frontend/src/services/tripService.ts:114-122 | the first location with the id is replaced; the list is unchanged when there is none |
| Storage.Store.DeleteLocation | frontend/src/services/tripService.ts:125-139 | the location is removed and every trip referring to it loses its location, in one call |
| Storage.Store.AddChecklistItem | frontend/src/services/tripService.ts:142-158 | None for an unknown trip, with nothing changed; otherwise an unchecked item is appended to the first matching trip's checklist and returned |
| Storage.Store.RemoveChecklistItem | frontend/src/services/tripService.ts:161-172 | every item with the id leaves the first matching trip's checklist; nothing else changes |
| Storage.Store.ToggleChecklistItem | frontend/src/services/tripService.ts:175-194 | the stored trips are toggled as specified; the result is None exactly when the trip or item is missing, and otherwise the item's new `checked` value |
| GearService.GearById | frontend/src/services/gearService.ts:35-38 | None exactly when no item has the id; otherwise the first item with it |
| Storage.Store.AddGearItem | frontend/src/services/gearService.ts:41-51 | the draft with its new id is appended, and a lookup by that id finds it |
| Storage.Store.UpdateGearItem | frontend/src/services/gearService.ts:54-62 | the first item with the id is replaced; the inventory is unchanged when there is none |
| Storage.Store.DeleteGearItem | frontend/src/services/gearService.ts:65-76 | every item with the id is removed, and the id is removed from every gear set |
| GearService.PruneSetsSpec | frontend/src/services/gearService.ts:65-76 | after pruning, no set lists the id; every set keeps its id, name, description and the order and count of its other items; pruning twice is pruning once |
| GearService.FilterByCategory | frontend/src/services/gearService.ts:79-82 | exactly the items of the category, in inventory order |
| GearService.ItemsNeedingMaintenance | frontend/src/services/gearService.ts:85-101 | exactly the items that need maintenance at that instant, in inventory order |
| GearService.NeedsMaintenanceIff | frontend/src/services/gearService.ts:85-101 | an item needs maintenance iff it has a date and a non-zero interval and at least `interval` whole days have passed since midnight of that date |
| GearService.NeedsMaintenanceLater | frontend/src/services/gearService.ts:85-101 | an item that needs maintenance still needs it at any later instant |
| GearService.GearSetById | frontend/src/services/gearService.ts:109-112 | None exactly when no set has the id; otherwise the first set with it |
| Storage.Store.AddGearSet | frontend/src/services/gearService.ts:115-125 | the draft with its new id is appended, and a lookup finds it |
| Storage.Store.UpdateGearSet | frontend/src/services/gearService.ts:128-136 | the first set with the id is replaced; the list is unchanged when there is none |
| Storage.Store.DeleteGearSet | frontend/src/services/gearService.ts:139-142 | every set with the id is removed |
| GearService.GearSetItems | frontend/src/services/gearService.ts:145-153 | empty for an unknown set; otherwise exactly the inventory items whose id the set lists, in inventory order |
| GearService.FieldUpdatesSpec | frontend/src/services/gearService.ts:156-175 | the quantity and maintenance-date updates change only that field of the first item with the id, and are no-ops for an unknown id; a lookup then sees the new quantity |
| Storage.Store.UpdateMaintenanceDate | frontend/src/services/gearService.ts:156-164 | the stored inventory becomes the maintenance-date update of the old one |
| Storage.Store.UpdateItemQuantity | frontend/src/services/gearService.ts:167-175 | the stored inventory becomes the quantity update of the old one |
| JournalService.EntryById | frontend/src/services/journalService.ts:15-18 | None exactly when no entry has the id; otherwise the first entry with it |
| Storage.Store.AddEntry | frontend/src/services/journalService.ts:21-31 | the draft with its new id is appended, and a lookup finds it |
| Storage.Store.UpdateEntry | frontend/src/services/journalService.ts:34-42 | the first entry with the id is replaced; the journal is unchanged when there is none |
| Storage.Store.DeleteEntry | frontend/src/services/journalService.ts:45-48 | every entry with the id is removed |
| JournalService.FilterEntries | frontend/src/services/journalService.ts:51-89 | exactly the entries that meet every given criterion, in journal order |
| JournalService.NoFiltersKeepAll | frontend/src/services/journalService.ts:51-89 | with no criterion set, every entry is kept |
| JournalService.GetStats | frontend/src/services/journalService.ts:92-120 | zeros and no biggest catch for an empty journal; otherwise the entry count, the numbers of distinct species and of distinct location names (between 1 and the count), and the biggest catch as computed |
| JournalService.BiggestSpec | frontend/src/services/journalService.ts:107-112 | the biggest catch is an entry of the journal; when the first entry has no truthy weight, it stays the answer; otherwise the answer has the largest weight and is its first occurrence |
| FishService.SampleSpeciesIds | frontend/src/services/fishService.ts:8-59 | the built-in sample holds five species with ids "1" to "5", all distinct |
| FishService.Seeded | frontend/src/services/fishService.ts:64-73 | an empty store is seeded with the sample; a non-empty one is returned as is |
| FishService.SeededIdempotent | frontend/src/services/fishService.ts:64-73 | seeding twice is seeding once |
| Storage.Store.InitFishSpecies | frontend/src/services/fishService.ts:64-73 | the stored species become the seeded list, which is returned |
| FishService.SpeciesById | frontend/src/services/fishService.ts:81-84 | None exactly when no species has the id; otherwise the first one with it |
| FishService.SearchSpecies | frontend/src/services/fishService.ts:87-95 | exactly the species whose common or scientific name contains the query, ignoring case, in order |
| FishService.EmptySearchKeepsAll | frontend/src/services/fishService.ts:87-95 | the empty query keeps every species |
| FishService.FilterSpecies | frontend/src/services/fishService.ts:98-116 | exactly the species meeting the habitat and technique criteria that are set, in order |
| FishService.NoCriteriaKeepAll | frontend/src/services/fishService.ts:98-116 | with no criterion set, every species is kept |
| Storage.Store.AddSpecies | frontend/src/services/fishService.ts:119-130 | the draft with its new id is appended, and a lookup finds it |
| Storage.Store.UpdateSpecies | frontend/src/services/fishService.ts:133-140 | the first species with the id is replaced; the list is unchanged when there is none |
| Storage.Store.DeleteSpecies | frontend/src/services/fishService.ts:143-146 | every species with the id is removed |
| WeatherService.JsRound | frontend/src/services/weatherService.ts:24 | `Math.round` gives the integer within one half of the argument, halves rounded up |
| WeatherService.JsRem | frontend/src/services/weatherService.ts:24 | JavaScript's `%` takes the sign of the dividend and is smaller in magnitude than the divisor |
| WeatherService.WindDirection | frontend/src/services/weatherService.ts:22-26 | a non-negative bearing always yields a compass point: the one, counted round the compass, of the 22.5-degree sector centred on a multiple of 22.5 degrees that holds the bearing |
| WeatherService.CardinalPoints | frontend/src/services/weatherService.ts:22-26 | 0 and 360 are N, 90 is E, 180 is S, 270 is W |
| WeatherService.SectorEdges | frontend/src/services/weatherService.ts:22-26 | 11.25 rounds up to NNE; -45 gives a negative index and no direction; -360 is N |
| WeatherService.CalculateFishingScore | frontend/src/services/weatherService.ts:29-60 | the score is the fishing-score function of wind speed and precipitation and lies between 40 and 80 |
| WeatherService.ScoreRange | frontend/src/services/weatherService.ts:29-60 | the unclamped sum already lies between 40 and 80, so clamping to 0..100 never changes it |
| WeatherService.ScorePoints | frontend/src/services/weatherService.ts:29-60 | moderate wind and no rain give 65; the score is 80 exactly with light wind and light rain, and 40 exactly with strong wind and heavy rain |
| Helpers.FishingScoreColor | frontend/src/utils/helpers.ts:60-66 | each of the five colours is returned exactly on its score band |
| Helpers.ColorMonotone | frontend/src/utils/helpers.ts:60-66 | a higher score never gets a worse colour |
| Helpers.MoonPhaseName | frontend/src/utils/helpers.ts:86-95 | each of the eight names is returned exactly on its phase value or interval; negative phases are "Waxing Crescent" |
| TripSlice.TripState.constructor | frontend/src/store/slices/tripSlice.ts:34-40 | the initial state: no trips or locations, no current trip, not loading, no error |
| TripSlice.TripState.AddTrip | frontend/src/store/slices/tripSlice.ts:47-49 | the trip is appended |
| TripSlice.TripState.UpdateTrip | frontend/src/store/slices/tripSlice.ts:52-57 | the first trip with the id is replaced, if any |
| TripSlice.TripState.DeleteTrip | frontend/src/store/slices/tripSlice.ts:60-62 | every trip with the id is removed |
| TripSlice.TripState.SetCurrentTrip | frontend/src/store/slices/tripSlice.ts:65-67 | the current trip is the first trip with the id, or None |
| TripSlice.TripState.AddLocation | frontend/src/store/slices/tripSlice.ts:70-72 | the location is appended |
| TripSlice.TripState.RemoveLocation | frontend/src/store/slices/tripSlice.ts:75-79 | every location with the id is removed, and the trips are left as they are, so a trip can still name the removed location |
| TripSlice.TripState.ToggleChecklistItem | frontend/src/store/slices/tripSlice.ts:82-96 | the trips become the toggled trips, the same update as the service's |
| GearSlice.GearState.constructor | frontend/src/store/slices/gearSlice.ts:30-35 | the initial state: empty inventory and sets, not loading, no error |
| GearSlice.GearState.AddGearItem | frontend/src/store/slices/gearSlice.ts:42-44 | the item is appended |
| GearSlice.GearState.UpdateGearItem | frontend/src/store/slices/gearSlice.ts:47-52 | the first item with the id is replaced, if any |
| GearSlice.GearState.DeleteGearItem | frontend/src/store/slices/gearSlice.ts:55-62 | the item leaves the inventory and its id leaves every set, as in the service |
| GearSlice.GearState.UpdateItemQuantity | frontend/src/store/slices/gearSlice.ts:65-72 | the same quantity update as the service's |
| GearSlice.GearState.AddGearSet | frontend/src/store/slices/gearSlice.ts:75-77 | the set is appended |
| GearSlice.GearState.UpdateGearSet | frontend/src/store/slices/gearSlice.ts:80-85 | the first set with the id is replaced, if any |
| GearSlice.GearState.DeleteGearSet | frontend/src/store/slices/gearSlice.ts:88-90 | every set with the id is removed, and the inventory is untouched |
| GearSlice.GearState.UpdateMaintenanceDate | frontend/src/store/slices/gearSlice.ts:93-100 | the same maintenance-date update as the service's |
| FishSlice.FishState.constructor | frontend/src/store/slices/fishSlice.ts:39-45 | the initial state: no species, empty journal, nothing selected, not loading, no error |
| FishSlice.FishState.SetSpeciesDatabase | frontend/src/store/slices/fishSlice.ts:52-54 | the database becomes the given list |
| FishSlice.FishState.SelectSpecies | frontend/src/store/slices/fishSlice.ts:57-61 | the selection is the first species with the id, or None |
| FishSlice.FishState.AddCatchEntry | frontend/src/store/slices/fishSlice.ts:64-66 | the entry is appended |
| FishSlice.FishState.UpdateCatchEntry | frontend/src/store/slices/fishSlice.ts:69-77 | the first entry with the id is replaced, if any |
| FishSlice.FishState.DeleteCatchEntry | frontend/src/store/slices/fishSlice.ts:80-84 | every entry with the id is removed |
| FishSlice.FishState.SetLoading | frontend/src/store/slices/fishSlice.ts:87-89 | only the loading flag changes |
| FishSlice.FishState.SetError | frontend/src/store/slices/fishSlice.ts:92-94 | only the error changes |
| WeatherSlice.WeatherState.constructor | frontend/src/store/slices/weatherSlice.ts:39-47 | the initial state: no data, never updated, not loading, no error |
| WeatherSlice.WeatherState.SetCurrentWeather | frontend/src/store/slices/weatherSlice.ts:54-57 | the current weather is set and stamped with the instant |
| WeatherSlice.WeatherState.SetForecast | frontend/src/store/slices/weatherSlice.ts:60-63 | the forecast is set and stamped with the instant |
| WeatherSlice.WeatherState.SetTides | frontend/src/store/slices/weatherSlice.ts:66-68 | only the tides change |
| WeatherSlice.WeatherState.SetSunData | frontend/src/store/slices/weatherSlice.ts:71-73 | only the sun data change |
| WeatherSlice.WeatherState.SetLoading | frontend/src/store/slices/weatherSlice.ts:76-78 | only the loading flag changes |
| WeatherSlice.WeatherState.SetError | frontend/src/store/slices/weatherSlice.ts:81-83 | only the error changes |
| WeatherSlice.WeatherState.ClearWeatherData | frontend/src/store/slices/weatherSlice.ts:86-92 | all weather data and the timestamp are cleared; the loading flag and error are kept |
| Calendar.DaysSince | frontend/src/services/gearService.ts:94-97 | the elapsed whole days are the floor of the elapsed time in days, also before midnight of the date |
| Calendar.DayOf | frontend/src/components/gear/GearManager.tsx:155 | the day whose midnight-to-midnight span holds the instant |
| Calendar.MonthOf | frontend/src/components/journal/CatchJournal.tsx:95-107 | every day falls in a month numbered 1 to 12 |
| Calendar.MonthOfCivil | frontend/src/components/journal/CatchJournal.tsx:96-97 | every day of every month of every Gregorian year (leap days included, before 1970 too) is placed in its own year and month, a round trip through the independent day count DaysFromCivil |
| Calendar.MonthOfLeapDay | frontend/src/components/journal/CatchJournal.tsx:95-107 | 29 February 2024 is in February 2024 |
| Calendar.MonthOfAfterLeapDay | frontend/src/components/journal/CatchJournal.tsx:95-107 | the following day is in March 2024 |
| Calendar.MonthOfEpoch | frontend/src/components/journal/CatchJournal.tsx:95-107 | day 0 is in January 1970 |
| Calendar.MonthOfBeforeEpoch | frontend/src/components/journal/CatchJournal.tsx:95-107 | day -1 is in December 1969 |
| Calendar.MonthLeTotalPreorder | frontend/src/components/journal/CatchJournal.tsx:107 | the order of the month keys is total and transitive |
| GearManager.FilteredInventory | frontend/src/components/gear/GearManager.tsx:49-69 | the intended view list: exactly the items that pass the category filter and, when the maintenance switch is on, need maintenance, in inventory order |
| GearManager.FilteredInventorySpec | frontend/src/components/gear/GearManager.tsx:49-69 | with no filter the list is the inventory; by category it is the service's category filter; the maintenance switch gives the service's maintenance list |
| GearManager.FilteredInventoryAsWritten | frontend/src/components/gear/GearManager.tsx:49-57 | as written, rendering fails exactly when the maintenance switch is on and the inventory is non-empty; otherwise it gives the intended list |
| GearManager.MaintenanceFilterThrows | frontend/src/components/gear/GearManager.tsx:49-57 | one item that is due: the code as written throws, where the list with exactly that item is intended |
| GearManager.ToggleSelection | frontend/src/components/gear/GearManager.tsx:127-133 | a selected id leaves the selection; an unselected one is appended |
| GearManager.ToggleSelectionTwice | frontend/src/components/gear/GearManager.tsx:127-133 | toggling twice restores membership, and restores the selection itself when the id was not selected |
| GearManager.UpdateQuantity | frontend/src/components/gear/GearManager.tsx:210-227 | a negative quantity changes nothing; otherwise every item with the id and a matching selected item get the quantity, and nothing else changes |
| GearManager.UpdateQuantityAgrees | frontend/src/components/gear/GearManager.tsx:210-227 | with unique ids, the view's inventory equals the service's quantity update |
| GearManager.MarkMaintained | frontend/src/components/gear/GearManager.tsx:154-171 | every item with the id, and a matching selected item, is maintained today; nothing else changes |
| GearManager.MarkMaintainedSpec | frontend/src/components/gear/GearManager.tsx:154-171 | with unique ids, the view's inventory equals the service's maintenance-date update for today |
| GearManager.MaintainedNotDue | frontend/src/components/gear/GearManager.tsx:154-171 | an item just maintained with a positive interval does not need maintenance at that instant |
| GearManager.NonEmpty | frontend/src/components/gear/GearManager.tsx:80-91 | an empty text field contributes nothing; a non-empty one contributes its value |
| GearManager.NewGearItem | frontend/src/components/gear/GearManager.tsx:72-100 | rejected exactly without a name or category; otherwise the draft carries the form's fields, and an interval also records today as the last maintenance |
| GearManager.NewGearNotDue | frontend/src/components/gear/GearManager.tsx:72-100 | a newly added item with a positive interval does not need maintenance at the instant it is added |
| GearManager.NewGearSet | frontend/src/components/gear/GearManager.tsx:103-124 | rejected exactly without a name or with no items selected; otherwise a set with those fields |
| GearManager.DeleteGear | frontend/src/components/gear/GearManager.tsx:174-189 | unconfirmed: unchanged; confirmed: every item with the id leaves the list, and a matching selection is cleared |
| GearManager.DeleteGearSet | frontend/src/components/gear/GearManager.tsx:192-207 | unconfirmed: unchanged; confirmed: every set with the id leaves the list, and a matching selection is cleared |
| CatchJournal.ClearFilters | frontend/src/components/journal/CatchJournal.tsx:122-127 | all four filter fields are empty |
| CatchJournal.FilteredEntries | frontend/src/components/journal/CatchJournal.tsx:37-64 | exactly the entries whose species and location contain the set filters, ignoring case, and whose date is within the set bounds, inclusive, in journal order |
| CatchJournal.ClearedFiltersKeepAll | frontend/src/components/journal/CatchJournal.tsx:37-64 | with cleared filters every entry is shown |
| CatchJournal.DisplayedEntries | frontend/src/components/journal/CatchJournal.tsx:67-69 | the sorted list is newest first and is a permutation of the filtered entries; entries of the same date keep their journal order, so the list is the stable sort of the filtered entries |
| CatchJournal.SameDayKeepsOrder | frontend/src/components/journal/CatchJournal.tsx:67-69 | two catches of the same day are listed in the order they were logged |
| CatchJournal.LocationNames | frontend/src/components/journal/CatchJournal.tsx:72-74 | the names are exactly the entries' location names |
| CatchJournal.SpeciesNames | frontend/src/components/journal/CatchJournal.tsx:77-79 | one species name per entry, and exactly the entries' species |
| CatchJournal.FilterListsSpec | frontend/src/components/journal/CatchJournal.tsx:72-79 | both filter lists are in string order, contain no duplicates, and hold exactly the values that occur in the journal |
| CatchJournal.SpeciesData | frontend/src/components/journal/CatchJournal.tsx:84-92 | one bar per species, with no species twice, in order of the species' first appearance in the journal (which fixes each slice's colour); each count is that species' number of entries; the counts add up to the journal size |
| CatchJournal.Months | frontend/src/components/journal/CatchJournal.tsx:95-100 | one month per entry, and exactly the entries' months |
| CatchJournal.BucketLeTotalPreorder | frontend/src/components/journal/CatchJournal.tsx:107 | the month-bucket comparator is total and transitive |
| CatchJournal.SortedBucketsContents | frontend/src/components/journal/CatchJournal.tsx:102-107 | sorting the buckets keeps every bucket and the total, with months still distinct |
| CatchJournal.SortedBucketsOrder | frontend/src/components/journal/CatchJournal.tsx:102-107 | sorted buckets with distinct months are strictly increasing |
| CatchJournal.TimeData | frontend/src/components/journal/CatchJournal.tsx:95-107 | one bucket per month that has a catch, with its number of catches, in strictly increasing month order; the counts add up to the journal size |
| CatchJournal.MaxWeight | frontend/src/components/journal/CatchJournal.tsx:379-382 | None exactly when no entry has a truthy weight; otherwise the largest such weight, which some entry has |
| CatchJournal.BiggestShownSpec | frontend/src/components/journal/CatchJournal.tsx:379-382 | when the first entry is weighted, the figure is the weight of the service's biggest catch; when it is not, the service reports the first entry and the figure is the largest weight of the others |
| CatchJournal.DeleteEntry | frontend/src/components/journal/CatchJournal.tsx:129-134 | unconfirmed: unchanged; confirmed: every entry with the id leaves the list and the others keep their order |
| FishDatabase.ClearFilters | frontend/src/components/fish/FishDatabase.tsx:65-69 | all three filter fields are empty |
| FishDatabase.FilteredSpecies | frontend/src/components/fish/FishDatabase.tsx:27-49 | exactly the species matching the search in either name and the set habitat and technique filters, ignoring case, in order |
| FishDatabase.FilteredSpeciesSpec | frontend/src/components/fish/FishDatabase.tsx:27-49 | the view's filter is the service's search followed by the service's criteria filter; cleared filters show every species |
| FishDatabase.HabitatNames | frontend/src/components/fish/FishDatabase.tsx:52-54 | exactly the species' habitats |
| FishDatabase.AllTechniques | frontend/src/components/fish/FishDatabase.tsx:57-59 | exactly the techniques of some species |
| FishDatabase.OptionListsSpec | frontend/src/components/fish/FishDatabase.tsx:52-59 | both option lists are in string order, contain no duplicates, and hold exactly the values that occur |
| TripPlanner.LoadTrips | frontend/src/components/trips/TripPlanner.tsx:13-26 | the loaded trips are sorted by date and are a permutation of the stored ones; trips of the same date keep their stored order, so the list is the stable sort of the stored trips |
| TripPlanner.FilteredTrips | frontend/src/components/trips/TripPlanner.tsx:29-40 | the upcoming tab shows exactly the trips dated today or later; the past tab the earlier ones; the all tab every trip; in list order |
| TripPlanner.TabsPartition | frontend/src/components/trips/TripPlanner.tsx:29-40 | no trip is both upcoming and past, together they are the whole list, and the all tab is the list |
| TripPlanner.TabsStaySorted | frontend/src/components/trips/TripPlanner.tsx:29-40 | every tab of a date-sorted list is date-sorted |
| TripPlanner.UpcomingTabAgrees | frontend/src/components/trips/TripPlanner.tsx:13-40 | the upcoming tab and the service's upcoming list hold the same trips, as often, both in date order |
| TripPlanner.UpcomingTabIsService | frontend/src/components/trips/TripPlanner.tsx:13-40 | after the load-time sort the upcoming tab is exactly the service's upcoming list, the same trips in the same order, ties included |
| Sorting.SortByKey | frontend/src/components/trips/TripPlanner.tsx:19 | the array ends sorted by key and a permutation of its old contents, and elements with equal keys keep their relative order, as `Array.prototype.sort` guarantees |
| Sorting.StableSortedUnique | frontend/src/components/journal/CatchJournal.tsx:67-69 | two key-sorted lists in which each key's elements come in the same order are equal, so a stable sort has exactly one result |
| Sorting.SortByStable | frontend/src/services/tripService.ts:49 | the sequence sort used for freshly built arrays is stable: each key's elements keep their order |
| Seqs.Tally | frontend/src/components/journal/CatchJournal.tsx:83-86 | the counter lists every key once, in order of first appearance, with its number of occurrences; the counts add up to the number of keys |
| TripPlanner.DeleteTrip | frontend/src/components/trips/TripPlanner.tsx:124-129 | unconfirmed: unchanged; confirmed: every trip with the id leaves the list and the others keep their order |
| MaintenanceReminders.DaysSinceLast | frontend/src/components/dashboard/MaintenanceReminders.tsx:24-33 | None exactly without a maintenance date; otherwise the floor of the elapsed days |
| MaintenanceReminders.ReminderOf | frontend/src/components/dashboard/MaintenanceReminders.tsx:47-57 | no text without a date or interval; a bare "0" for interval 0; otherwise "overdue" by a positive count exactly when more days than the interval have passed, else "due in" the remaining days |
| MaintenanceReminders.ReminderAgreesWithCheck | frontend/src/components/dashboard/MaintenanceReminders.tsx:24-57 | an item needs maintenance exactly when it is shown overdue or due in 0 days |
| MaintenanceReminders.DueOnTheDay | frontend/src/components/dashboard/MaintenanceReminders.tsx:47-57 | on the day the interval is reached the reminder says due in 0 days, not overdue |
| WeatherForecast.FishingScores | frontend/src/components/weather/WeatherForecast.tsx:91-94 | one point per forecast day, with its date and its fishing score, between 40 and 80 |
| WeatherForecast.TemperatureColor | frontend/src/components/weather/WeatherForecast.tsx:126-132 | each of the five colours is returned exactly on its temperature band |
| WeatherForecast.RatingLabels | frontend/src/components/weather/WeatherForecast.tsx:239-243 | exactly one label is rendered, each exactly on its score band |
| WeatherForecast.RatingMatchesColor | frontend/src/components/weather/WeatherForecast.tsx:239-243 | the label's rank equals the score colour's rank; forecast scores are only ever "Excellent", "Good" or "Average" |
| WeatherForecast.Daylight | frontend/src/components/weather/WeatherForecast.tsx:316-321 | for sunset at or after sunrise, the hours and minutes are the whole hours and remaining whole minutes of daylight |
| WeatherForecast.DaylightNegative | frontend/src/components/weather/WeatherForecast.tsx:316-321 | a sunset one minute before sunrise shows -1 hours and -1 minutes |
| WeatherForecast.MoonGlyphs | frontend/src/components/weather/WeatherForecast.tsx:334-341 | a non-negative phase renders exactly one glyph; a negative one renders none |
| WeatherForecast.GlyphMatchesName | frontend/src/components/weather/WeatherForecast.tsx:334-341 | the glyph shown matches the helper's phase name; for a negative phase no glyph is shown though the name is "Waxing Crescent" |
| WeatherForecast.WindTip | frontend/src/components/weather/WeatherForecast.tsx:397-400 | the windy tip exactly above 15 mph, the calm one otherwise |
| WeatherForecast.PressureTip | frontend/src/components/weather/WeatherForecast.tsx:408-411 | the high-pressure tip exactly above 1013 hPa, the low one otherwise |

## Left out

- Storage: JSON encoding, malformed stored data and the try/catch blocks are not modelled. A key's value is its decoded sequence.
- Ids: `generateId` (timestamp plus random digits) is not modelled. Callers pass the new id, with a precondition that it is not already in use.
- Clocks: `Date.now()` and `new Date()` become millisecond parameters.
- Time zones: the model works on the UTC calendar. The code's local-time getters and `setHours` are not modelled.
- TripPlanner.FilteredTrips: the view compares a trip date parsed as UTC midnight with local midnight from `setHours(0, 0, 0, 0)`. West of UTC a trip dated today is therefore listed under "past" and not under "upcoming"; the model compares UTC days and lists it as upcoming.
- Display formatting (`toFixed`, `toLocaleDateString`, CSS, JSX markup) is not modelled; only the values a view displays are.
- Weather loading: the HTTP calls, `convertWeatherData` and the backend proxy are not modelled. Their results are the slice inputs.
- Concurrency: the async thunks and loading transitions are not modelled, beyond the reducers that set the flags.
- The views not listed above are not modelled, nor the routes or transitions.
- View handlers: the service calls inside them are the `Storage.Store` methods. The view functions model the component state they then set.
- Case folding covers ASCII letters only; Unicode case mapping is not modelled.
- Numbers are unbounded integers or exact reals. NaN, infinities and floating-point rounding are not modelled.
- Form input: the maintenance-interval field is the number `parseInt` reads, or None when the field is empty. A field that reads as NaN is not modelled.
- Sunrise and sunset are instants in milliseconds. The parsing of their time strings is not modelled.
- MaintenanceReminders' "Mark as Maintained" button only shows an alert, so it is not modelled.
- CatchJournal.TimeData: the month comes from the UTC calendar day of the entry's date. The view reads local-time fields of a date parsed as UTC, so west of UTC a catch on the first of a month can be counted in the previous month.
- CatchJournal.SpeciesData: species are counted in order of first appearance, as non-integer object keys are enumerated. The earlier, numeric-order listing of integer-like keys such as "42" is not modelled.
- CatchJournal.SpeciesData: a species named after a property every plain object inherits ("constructor", "toString", "valueOf" and the like) starts its count from that inherited function, so `(count || 0) + 1` yields a string such as "function toString() { [native code] }1". A species named "__proto__" becomes no key at all, so it gets no bar. The model counts such a species like any other.
- CatchJournal.TimeData: the year in the "YYYY-MM" key is not padded, and `localeCompare` orders the keys as text. The model's (year, month) order agrees with that only for years 1000 to 9999: in the source "999-06" sorts after "2024-06", and "10000-01" before "9999-12".
- Text.StringLe: compares Unicode scalar values, while `Array.prototype.sort` compares UTF-16 code units. The two orders differ between a character above U+FFFF (a surrogate pair, from 0xD800) and one from U+E000 to U+FFFF.
- CatchJournal.MaxWeight: `Math.max()` of no weights (`-Infinity`) is None.
- WeatherService.JsRem: only the sign and magnitude bounds are stated, not the congruence with the dividend.
- GearManager.MarkMaintained: "today" is the UTC day of the instant (`toISOString`), with no local-time offset.

## Findings

| source | as written | input that shows it | evidently intended | confidence | as-written member | corrected member |
|---|---|---|---|---|---|---|
| frontend/src/components/gear/GearManager.tsx:49-57 | the inventory filter runs while the component renders, and calls `needsMaintenance`, a `const` arrow function declared after it in the same body; calling it before its declaration throws (temporal dead zone) | the "needs maintenance" switch on and an inventory of one item that is due | the list of items that pass the category filter and need maintenance, here that single item | not executed | GearManager.FilteredInventoryAsWritten, GearManager.MaintenanceFilterThrows | GearManager.FilteredInventory, GearManager.FilteredInventorySpec |
