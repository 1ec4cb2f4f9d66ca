/** The data logic of the species view: its three filters and the habitat and technique lists. */
module FishDatabase {
  import opened Seqs
  import opened Sorting
  import opened Records
  import opened Text
  import opened FishService

  /** The search box and the two drop-downs; an empty field imposes nothing. */
  datatype SpeciesFilters = SpeciesFilters(search: string, habitat: string, technique: string)

  /** `clearFilters`: all three fields empty. */
  function ClearFilters(): (r: SpeciesFilters)
    ensures r.search == "" && r.habitat == "" && r.technique == ""
  {
    SpeciesFilters("", "", "")
  }

  predicate Shown(s: FishSpecies, f: SpeciesFilters)
  {
    (f.search == "" || NameMatches(s, f.search)) && CriteriaMatch(s, f.habitat, f.technique)
  }

  /**
    `filteredSpecies`: a species stays iff a non-empty search occurs in its common
    or scientific name, a non-empty habitat in its habitat, and a non-empty
    technique in one of its techniques, all ignoring case.
  */
  function FilteredSpecies(species: seq<FishSpecies>, f: SpeciesFilters): (r: seq<FishSpecies>)
    ensures forall s :: s in r <==>
              (s in species
               && (f.search == "" || IncludesIgnoringCase(s.commonName, f.search)
                                  || IncludesIgnoringCase(s.scientificName, f.search))
               && (f.habitat == "" || IncludesIgnoringCase(s.habitat, f.habitat))
               && (f.technique == "" || exists t :: t in s.techniques && IncludesIgnoringCase(t, f.technique)))
    ensures Subseq(r, species)
  {
    Filter(species, (s: FishSpecies) => Shown(s, f))
  }

  /**
    The view's filter is the service's name search followed by its criteria
    filter; with the filters cleared it shows every species in stored order.
  */
  lemma FilteredSpeciesSpec(species: seq<FishSpecies>, f: SpeciesFilters)
    ensures FilteredSpecies(species, f) == FilterSpecies(SearchSpecies(species, f.search), f.habitat, f.technique)
    ensures FilteredSpecies(species, ClearFilters()) == species
  {
    forall s: FishSpecies ensures Shown(s, f) == (NameMatches(s, f.search) && CriteriaMatch(s, f.habitat, f.technique)) {
      EmptyQueryMatches(s.commonName);
    }
    FilterFilter(species, (s: FishSpecies) => NameMatches(s, f.search),
                 (s: FishSpecies) => CriteriaMatch(s, f.habitat, f.technique), (s: FishSpecies) => Shown(s, f));
    var g := ClearFilters();
    FilterKeepsAll(species, (s: FishSpecies) => Shown(s, g));
  }

  function HabitatNames(species: seq<FishSpecies>): (r: seq<string>)
    ensures forall x :: x in r <==> exists s :: s in species && s.habitat == x
  {
    if species == [] then [] else [species[0].habitat] + HabitatNames(species[1..])
  }

  /** `species.flatMap(s => s.techniques)`. */
  function AllTechniques(species: seq<FishSpecies>): (r: seq<string>)
    ensures forall x :: x in r <==> exists s :: s in species && x in s.techniques
  {
    if species == [] then [] else species[0].techniques + AllTechniques(species[1..])
  }

  /** `habitats`: each habitat once, in string order. */
  function Habitats(species: seq<FishSpecies>): seq<string>
  {
    SortBy(Distinct(HabitatNames(species)), StringLe)
  }

  /** `techniques`: each technique of any species once, in string order. */
  function Techniques(species: seq<FishSpecies>): seq<string>
  {
    SortBy(Distinct(AllTechniques(species)), StringLe)
  }

  /** Both lists are in string order, have no duplicates and hold exactly the values that occur. */
  lemma OptionListsSpec(species: seq<FishSpecies>)
    ensures SortedBy(Habitats(species), StringLe) && NoDuplicates(Habitats(species))
    ensures forall x :: x in Habitats(species) <==> exists s :: s in species && s.habitat == x
    ensures SortedBy(Techniques(species), StringLe) && NoDuplicates(Techniques(species))
    ensures forall x :: x in Techniques(species) <==> exists s :: s in species && x in s.techniques
  {
    SortedDistinct(HabitatNames(species));
    SortedDistinct(AllTechniques(species));
  }
}
