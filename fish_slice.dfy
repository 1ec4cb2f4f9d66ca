/** The fish reducer: the species database, the catch journal and the selection. */
module FishSlice {
  import opened Wrappers
  import opened Keyed
  import opened Records
  import opened FishService

  class FishState {
    var speciesDatabase: seq<FishSpecies>
    var catchJournal: seq<CatchEntry>
    var selectedSpecies: Option<FishSpecies>
    var loading: bool
    var error: Option<string>

    constructor ()
      ensures speciesDatabase == [] && catchJournal == [] && selectedSpecies == None
      ensures !loading && error == None
    {
      speciesDatabase, catchJournal, selectedSpecies, loading, error := [], [], None, false, None;
    }

    /** `setSpeciesDatabase`: replaces the database wholesale. */
    method SetSpeciesDatabase(species: seq<FishSpecies>)
      modifies this`speciesDatabase
      ensures speciesDatabase == species
    {
      speciesDatabase := species;
    }

    /** `selectSpecies`: the first species with the id, or null. */
    method SelectSpecies(id: Id)
      modifies this`selectedSpecies
      ensures selectedSpecies == SpeciesById(speciesDatabase, id)
    {
      selectedSpecies := Find(speciesDatabase, SpeciesId, id);
    }

    /** `addCatchEntry`: pushes the payload. */
    method AddCatchEntry(e: CatchEntry)
      modifies this`catchJournal
      ensures catchJournal == old(catchJournal) + [e]
    {
      catchJournal := catchJournal + [e];
    }

    /** `updateCatchEntry`: replaces the first entry with the payload's id; no-op when there is none. */
    method UpdateCatchEntry(e: CatchEntry)
      modifies this`catchJournal
      ensures |catchJournal| == |old(catchJournal)|
      ensures match FirstIndex(old(catchJournal), EntryId, e.id)
              case None => catchJournal == old(catchJournal)
              case Some(k) => catchJournal == old(catchJournal)[k := e]
    {
      var index := FirstIndex(catchJournal, EntryId, e.id);
      if index.Some? {
        catchJournal := catchJournal[index.value := e];
      }
    }

    /** `deleteCatchEntry`: keeps the entries with another id. */
    method DeleteCatchEntry(id: Id)
      modifies this`catchJournal
      ensures catchJournal == RemoveAll(old(catchJournal), EntryId, id)
    {
      catchJournal := RemoveAll(catchJournal, EntryId, id);
    }

    /** `setLoading`. */
    method SetLoading(value: bool)
      modifies this`loading
      ensures loading == value
    {
      loading := value;
    }

    /** `setError`. */
    method SetError(value: Option<string>)
      modifies this`error
      ensures error == value
    {
      error := value;
    }
  }
}
