/**
  The record shapes shared by the services, reducers and views. Optional
  TypeScript properties are `Option`s; `null` locations are `None`. Calendar dates
  ("YYYY-MM-DD" strings in the app) are day numbers counted from 1970-01-01, and
  instants are milliseconds since the epoch.
*/
module Records {
  import opened Wrappers

  type Id = string

  /** A calendar date, as the number of days since 1970-01-01. */
  type Day = int

  datatype Location = Location(id: Id, name: string, latitude: real, longitude: real, notes: string)

  datatype TripItem = TripItem(id: Id, name: string, checked: bool)

  datatype Trip = Trip(id: Id, name: string, location: Option<Location>, date: Day,
                       notes: string, checklist: seq<TripItem>)

  datatype FishSpecies = FishSpecies(id: Id, commonName: string, scientificName: string,
                                     description: string, habitat: string,
                                     seasonality: seq<string>, techniques: seq<string>,
                                     imageUrl: Option<string>)

  datatype CatchEntry = CatchEntry(id: Id, date: Day, locationName: string,
                                   latitude: Option<real>, longitude: Option<real>,
                                   species: string, length: Option<real>, weight: Option<real>,
                                   technique: string, bait: Option<string>, weather: Option<string>,
                                   waterConditions: Option<string>, notes: string,
                                   imageUrl: Option<string>)

  datatype Category = Rod | Reel | Line | Lure | Hook | Bait | Tackle | Accessory

  /** `maintenanceInterval` is in days. */
  datatype GearItem = GearItem(id: Id, name: string, category: Category,
                               brand: Option<string>, model: Option<string>,
                               specs: Option<map<string, string>>, notes: Option<string>,
                               lastMaintenance: Option<Day>, maintenanceInterval: Option<int>,
                               quantity: int)

  /** `items` holds the ids of the gear items that go together. */
  datatype GearSet = GearSet(id: Id, name: string, description: Option<string>, items: seq<Id>)

  datatype WeatherData = WeatherData(date: string, temperature: real, windSpeed: real,
                                     windDirection: string, pressure: real, humidity: real,
                                     precipitation: real, conditions: string, icon: string)

  datatype TideKind = High | Low

  datatype TideData = TideData(date: string, time: string, height: real, kind: TideKind)

  /** Sunrise and sunset are instants in milliseconds; 0 is new moon and 0.5 full moon. */
  datatype SunData = SunData(date: string, sunrise: int, sunset: int, moonPhase: real)

  function LocationId(l: Location): Id { l.id }
  function TripItemId(i: TripItem): Id { i.id }
  function TripId(t: Trip): Id { t.id }
  function SpeciesId(s: FishSpecies): Id { s.id }
  function EntryId(e: CatchEntry): Id { e.id }
  function GearId(g: GearItem): Id { g.id }
  function SetId(s: GearSet): Id { s.id }
}
