/**
  The records both revisions of the calculator work on (the `Settings`,
  `Hotel`, `Activity`, `Flight`, `Transport` and `Meals` interfaces), the
  fixed fares and base meal prices, and the initial lists the component
  starts with. Money is `real` (prices such as 4451.5 occur); head counts
  are `nat`, already parsed from the input fields.
 */
module TripTypes {
  import opened KeyedList

  datatype Settings = Settings(students: nat, mentors: nat, pricePerStudent: real, taxPercent: real)

  datatype Hotel = Hotel(
    id: string,
    name: string,
    pricePerPerson: real,
    pricePerPair: real,
    includesBreakfast: bool,
    includesTransfer: bool,
    url: string,
    notes: string)

  datatype Activity = Activity(
    id: string,
    name: string,
    pricePerPerson: real,
    enabled: bool,
    notes: string,
    url: Option<string>)

  datatype Flight = Flight(
    id: string,
    name: string,
    route: string,
    date: string,
    time: string,
    price: real,
    notes: string)

  datatype Transport = Transport(mtr: real, ferry: real)

  datatype Meals = Meals(breakfast: real, lunch: real, dinner: real)

  /** The meal plan chosen in the UI: 'none' | 'breakfast' | 'lunch-dinner' | 'all'. */
  datatype MealOption = NoMeals | BreakfastOnly | LunchDinner | AllMeals

  function HotelId(h: Hotel): string { h.id }
  function ActivityId(a: Activity): string { a.id }
  function FlightId(f: Flight): string { f.id }

  /** Head count of the whole group. */
  function People(s: Settings): nat { s.students + s.mentors }

  /** Everything the cost calculators read, gathered into one value. */
  datatype Trip = Trip(
    settings: Settings,
    hotel: Hotel,
    fares: Transport,
    includeTransport: bool,
    mealOption: MealOption,
    mealPrices: Meals,
    activities: seq<Activity>,
    flights: seq<Flight>)

  /** No configured price is negative (the input fields do not enforce this). */
  predicate NonNegativePrices(t: Trip) {
    && t.hotel.pricePerPerson >= 0.0
    && t.hotel.pricePerPair >= 0.0
    && t.fares.mtr >= 0.0
    && t.fares.ferry >= 0.0
    && t.mealPrices.breakfast >= 0.0
    && t.mealPrices.lunch >= 0.0
    && t.mealPrices.dinner >= 0.0
    && (forall i :: 0 <= i < |t.activities| ==> t.activities[i].pricePerPerson >= 0.0)
    && (forall i :: 0 <= i < |t.flights| ==> t.flights[i].price >= 0.0)
  }

  /** Local transport fares per person: MTR pass and Star Ferry. */
  const TransportFares := Transport(288.0, 10.0)

  /** Initial meal prices per person. */
  const BaseMealPrices := Meals(1000.0, 1000.0, 1000.0)

  /** First day of the trip, the default date of a new flight. */
  const TripStart := "2026-03-20"

  const InitialHotels := [
    Hotel("beacon", "The BEACON", 3876.0, 7752.0, false, false,
          "https://book-directonline.com/properties/TheBeaconDirect", "Without Breakfast"),
    Hotel("dorsett", "Dorsett Mongkok", 4451.5, 8903.0, true, true,
          "https://www.book-secure.com/index.php?s=results&property=cnhon27154",
          "With Breakfast + Airport Transfer for group")
  ]

  const InitialActivities := [
    Activity("victoria-peak", "Victoria Peak (Peak Tram + Sky Terrace)", 182.0, true,
             "Return/Single, included Sky Terrace 428 + MeiLok Experience Studio",
             Some("https://webstore.thepeak.com.hk/ticket-detail?id=860")),
    Activity("victoria-harbour", "Victoria Harbour (Star Ferry + Laser Show)", 280.0, true,
             "Tsim Sha Tsui pier / Symphony of Lights Tour (19:45-20:30) / Non-alcoholic drink",
             Some("https://www.starferry.com.hk/en/wt-schedule")),
    Activity("observation-wheel", "Hong Kong Observation Wheel", 20.0, true,
             "Can be $320 HKD if we take 2 private cabins", Some("https://hkow.hk/#ticketshkow")),
    Activity("ifc-rooftop", "IFC Rooftop Garden", 10.0, true,
             "Take a drink for a pleasant experience", None),
    Activity("lantau-island", "Lantau Island (Ngong Ping 360 + Big Buddha)", 365.0, true,
             "Crystal Cabin Round Route", Some("https://webstore.np360.com.hk/en/p/cable-car-ticket")),
    Activity("disneyland", "Disneyland + Dinner", 752.0, true,
             "2-in-1 meal voucher + Day Pass", Some("https://www.hongkongdisneyland.com/book/general-tickets"))
  ]

  const InitialFlights := [
    Flight("outbound", "Астана → Гонконг", "TSE → HKG", "2026-03-20", "10:00", 0.0, "Только для менторов"),
    Flight("return", "Гонконг → Астана", "HKG → TSE", "2026-03-29", "18:00", 0.0, "Только для менторов")
  ]
}
