/**
  The species database: the five sample species the app seeds on first use, and
  the search and filter queries. The saving methods are in the `Storage` module.
*/
module FishService {
  import opened Wrappers
  import opened Seqs
  import opened Keyed
  import opened Records
  import opened Text

  /** The five sample species, ids "1" to "5", in order. */
  const SampleSpecies: seq<FishSpecies> := [
    FishSpecies("1", "Largemouth Bass", "Micropterus salmoides",
      "The largemouth bass is an olive-green to greenish-gray fish, marked by a series of dark, sometimes black, blotches forming a jagged horizontal stripe along each flank.",
      "Freshwater lakes, rivers, and ponds with vegetation and structure.",
      ["Spring", "Summer", "Fall"],
      ["Plastic worms", "Topwater lures", "Crankbaits", "Spinnerbaits"],
      Some("/images/largemouth-bass.jpg")),
    FishSpecies("2", "Rainbow Trout", "Oncorhynchus mykiss",
      "Rainbow trout are distinguished by a pink stripe along their sides, white underbelly, and small black spots on their back and fins.",
      "Cold, clear streams, rivers, and lakes.",
      ["Spring", "Fall"],
      ["Fly fishing", "Spinners", "Bait fishing with worms or powerbait"],
      Some("/images/rainbow-trout.jpg")),
    FishSpecies("3", "Walleye", "Sander vitreus",
      "Walleyes are primarily olive and golden in color with a white belly. The dorsal side of a walleye is olive, grading into a golden hue on the flanks.",
      "Large, turbid lakes and rivers.",
      ["Spring", "Fall", "Winter"],
      ["Jig and minnow", "Trolling with crankbaits", "Bottom bouncers with crawler harnesses"],
      Some("/images/walleye.jpg")),
    FishSpecies("4", "Northern Pike", "Esox lucius",
      "The northern pike is a species of carnivorous fish. They have elongated bodies with a duckbill-like snout and sharp teeth.",
      "Vegetated lakes and slow rivers.",
      ["Spring", "Fall", "Winter"],
      ["Spinners", "Spoons", "Large jerkbaits", "Dead baits in winter"],
      Some("/images/northern-pike.jpg")),
    FishSpecies("5", "Bluegill", "Lepomis macrochirus",
      "The bluegill is a small freshwater fish with a distinctive bright blue edge on its gill plate and an overall olive-green to brown color.",
      "Ponds, lakes, and slow-moving streams with vegetation.",
      ["Spring", "Summer"],
      ["Small jigs", "Worms", "Crickets", "Small flies"],
      Some("/images/bluegill.jpg"))
  ]

  /** The samples have distinct ids, so seeding leaves every sample reachable by id. */
  lemma SampleSpeciesIds()
    ensures |SampleSpecies| == 5
    ensures forall i :: 0 <= i < 5 ==> SampleSpecies[i].id == ["1", "2", "3", "4", "5"][i]
    ensures forall i, j :: 0 <= i < j < |SampleSpecies| ==> SampleSpecies[i].id != SampleSpecies[j].id
  {
  }

  /** The list `initFishSpecies` returns (and stores): the samples when the stored list is empty, else the stored list. */
  function Seeded(stored: seq<FishSpecies>): (r: seq<FishSpecies>)
    ensures stored == [] ==> r == SampleSpecies
    ensures stored != [] ==> r == stored
    ensures r != []
  {
    if |stored| == 0 then SampleSpecies else stored
  }

  /** Seeding twice is seeding once. */
  lemma SeededIdempotent(stored: seq<FishSpecies>)
    ensures Seeded(Seeded(stored)) == Seeded(stored)
  {
  }

  /** `getSpeciesById`: the first species with the id, or None. */
  function SpeciesById(species: seq<FishSpecies>, id: Id): (r: Option<FishSpecies>)
    ensures r.None? <==> forall s :: s in species ==> s.id != id
    ensures r.Some? ==> exists k :: 0 <= k < |species| && species[k] == r.value && r.value.id == id
                          && forall j :: 0 <= j < k ==> species[j].id != id
  {
    Find(species, SpeciesId, id)
  }

  /** The name test of `searchSpecies` (and of the species view's search box). */
  predicate NameMatches(s: FishSpecies, query: string)
  {
    IncludesIgnoringCase(s.commonName, query) || IncludesIgnoringCase(s.scientificName, query)
  }

  /** `searchSpecies`: the species whose common or scientific name contains the query, ignoring case. */
  function SearchSpecies(species: seq<FishSpecies>, query: string): (r: seq<FishSpecies>)
    ensures forall s :: s in r <==> s in species && NameMatches(s, query)
    ensures Subseq(r, species)
  {
    Filter(species, (s: FishSpecies) => NameMatches(s, query))
  }

  /** The empty query is contained in every name, so it keeps every species in order. */
  lemma EmptySearchKeepsAll(species: seq<FishSpecies>)
    ensures SearchSpecies(species, "") == species
  {
    var query := "";
    forall s | s in species ensures NameMatches(s, query) {
      EmptyQueryMatches(s.commonName);
    }
    FilterKeepsAll(species, (s: FishSpecies) => NameMatches(s, query));
  }

  /** The technique test: some technique of the species contains the query, ignoring case. */
  predicate SomeTechniqueMatches(s: FishSpecies, technique: string)
  {
    exists t :: t in s.techniques && IncludesIgnoringCase(t, technique)
  }

  /**
    The criteria test of `filterSpecies`: a given (non-empty) habitat must occur in
    the habitat, a given technique in some technique, both ignoring case.
  */
  predicate CriteriaMatch(s: FishSpecies, habitat: string, technique: string)
  {
    (habitat == "" || IncludesIgnoringCase(s.habitat, habitat))
    && (technique == "" || SomeTechniqueMatches(s, technique))
  }

  /** `filterSpecies`: the species meeting the given criteria, in stored order. */
  function FilterSpecies(species: seq<FishSpecies>, habitat: string, technique: string): (r: seq<FishSpecies>)
    ensures forall s :: s in r <==> s in species && CriteriaMatch(s, habitat, technique)
    ensures Subseq(r, species)
  {
    Filter(species, (s: FishSpecies) => CriteriaMatch(s, habitat, technique))
  }

  /** Omitted criteria impose nothing. */
  lemma NoCriteriaKeepAll(species: seq<FishSpecies>)
    ensures FilterSpecies(species, "", "") == species
  {
    var habitat, technique := "", "";
    FilterKeepsAll(species, (s: FishSpecies) => CriteriaMatch(s, habitat, technique));
  }
}
