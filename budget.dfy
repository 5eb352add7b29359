/**
  The budget engine of the calculator's first revision: five cost categories
  computed from the group (students and mentors) and the selected options,
  the total cost, the share of it spent on mentors, and revenue, tax,
  profit, margin and per-student figures with their division-by-zero guards.
  Every member is a pure function of a `Trip` value; the component state
  that supplies it is modelled in module Planner.
 */
module Budget {
  import opened KeyedList
  import opened TripTypes
  import Conversion
  import RealArith

  // ---------------------------------------------------------------------------
  // Selected hotel and display currency

  /** `hotels.find(h => h.id === selectedHotelId) || hotels[0]`. */
  function SelectedHotel(hotels: seq<Hotel>, selectedId: string): (h: Hotel)
    requires |hotels| > 0
    ensures h in hotels
    ensures HasId(hotels, HotelId, selectedId) ==> h.id == selectedId
    ensures !HasId(hotels, HotelId, selectedId) ==> h == hotels[0]
  {
    match Find(hotels, HotelId, selectedId)
    case Some(h) => h
    case None => hotels[0]
  }

  /** Tenge per Hong Kong dollar used by `formatCurrency`. */
  const HkdToKzt: real := 64.55

  /** The tenge figure `formatCurrency` shows beside an amount in dollars. */
  function KztAmount(hkd: real): (r: real)
    ensures r == Conversion.ToDisplayCurrency(hkd, "KZT", HkdToKzt)
  {
    hkd * HkdToKzt
  }

  // ---------------------------------------------------------------------------
  // Hotel

  /** Rooms booked and what they cost. */
  datatype HotelBill = HotelBill(total: real, pairs: nat, singles: nat)

  /**
    Students share rooms two by two at the pair price; the odd student, if
    any, and every mentor pay the per-person price.
   */
  function HotelCost(s: Settings, h: Hotel): (r: HotelBill)
    ensures 2 * r.pairs <= s.students < 2 * r.pairs + 2
    ensures 2 * r.pairs + r.singles == People(s)
    ensures r.singles >= s.mentors
    ensures r.total == r.pairs as real * h.pricePerPair + r.singles as real * h.pricePerPerson
  {
    var studentPairs := s.students / 2;
    var studentSingles := s.students % 2;
    var mentorSingles := s.mentors;
    var pairsCost := studentPairs as real * h.pricePerPair;
    var singlesCost := (studentSingles + mentorSingles) as real * h.pricePerPerson;
    HotelBill(pairsCost + singlesCost, studentPairs, studentSingles + mentorSingles)
  }

  /** When a pair room costs two single places, the hotel bill is a flat price per head. */
  lemma PairPriceIsTwoPlaces(s: Settings, h: Hotel)
    requires h.pricePerPair == 2.0 * h.pricePerPerson
    ensures HotelCost(s, h).total == People(s) as real * h.pricePerPerson
  {
    var r := HotelCost(s, h);
    calc {
      r.total;
      r.pairs as real * (2.0 * h.pricePerPerson) + r.singles as real * h.pricePerPerson;
      (2 * r.pairs + r.singles) as real * h.pricePerPerson;
    }
  }

  // ---------------------------------------------------------------------------
  // Transport

  /** Every traveller pays the MTR and ferry fares when transport is included. */
  function TransportCost(s: Settings, fares: Transport, included: bool): (r: real)
    ensures !included ==> r == 0.0
    ensures included ==> r == (fares.mtr + fares.ferry) * People(s) as real
  {
    if !included then 0.0
    else (fares.mtr + fares.ferry) * People(s) as real
  }

  /** Students and mentors pay the same fare: the group's bill is the two cohorts' bills added. */
  lemma TransportPerCohort(s: Settings, fares: Transport, included: bool)
    ensures TransportCost(s, fares, included)
         == TransportCost(s.(mentors := 0), fares, included) + TransportCost(s.(students := 0), fares, included)
  {
    var fare := fares.mtr + fares.ferry;
    assert fare * People(s) as real == fare * s.students as real + fare * s.mentors as real;
  }

  // ---------------------------------------------------------------------------
  // Meals

  /** Meals for every traveller; breakfast is not charged when the hotel serves it. */
  function MealCost(s: Settings, h: Hotel, option: MealOption, prices: Meals): (r: real)
    ensures option == NoMeals ==> r == 0.0
    ensures People(s) == 0 ==> r == 0.0
    ensures h.includesBreakfast && option == BreakfastOnly ==> r == 0.0
    ensures option == LunchDinner ==> r == People(s) as real * (prices.lunch + prices.dinner)
    ensures option == BreakfastOnly && !h.includesBreakfast ==> r == People(s) as real * prices.breakfast
    ensures option == AllMeals ==>
      r == People(s) as real * ((if h.includesBreakfast then 0.0 else prices.breakfast) + prices.lunch + prices.dinner)
  {
    var breakfastIncluded := h.includesBreakfast;
    var totalPeople := People(s) as real;
    RealArith.ZeroProduct(totalPeople, (if breakfastIncluded then 0.0 else prices.breakfast) + prices.lunch + prices.dinner);
    RealArith.ZeroProduct(totalPeople, prices.lunch + prices.dinner);
    RealArith.ZeroProduct(totalPeople, prices.breakfast);
    match option
    case AllMeals =>
      totalPeople * ((if breakfastIncluded then 0.0 else prices.breakfast) + prices.lunch + prices.dinner)
    case LunchDinner => totalPeople * (prices.lunch + prices.dinner)
    case BreakfastOnly => if breakfastIncluded then 0.0 else totalPeople * prices.breakfast
    case NoMeals => 0.0
  }

  /**
    Breakfast suppression: with breakfast at the hotel, the breakfast option
    is free and the full plan costs what lunch and dinner cost, whatever the
    breakfast price; without it, the full plan is breakfast plus lunch-dinner.
   */
  lemma BreakfastSuppression(s: Settings, h: Hotel, prices: Meals, breakfastPrice: real)
    ensures h.includesBreakfast ==>
      && MealCost(s, h, BreakfastOnly, prices) == 0.0
      && MealCost(s, h, AllMeals, prices) == MealCost(s, h, LunchDinner, prices)
      && forall o: MealOption :: MealCost(s, h, o, prices.(breakfast := breakfastPrice)) == MealCost(s, h, o, prices)
    ensures !h.includesBreakfast ==>
      MealCost(s, h, AllMeals, prices) == MealCost(s, h, BreakfastOnly, prices) + MealCost(s, h, LunchDinner, prices)
  {
    var p := People(s) as real;
    assert p * (prices.breakfast + prices.lunch + prices.dinner) == p * prices.breakfast + p * (prices.lunch + prices.dinner);
  }

  /** Non-negative meal prices give a non-negative meal bill. */
  lemma MealCostNonNegative(s: Settings, h: Hotel, option: MealOption, prices: Meals)
    requires prices.breakfast >= 0.0 && prices.lunch >= 0.0 && prices.dinner >= 0.0
    ensures MealCost(s, h, option, prices) >= 0.0
  {
    var p := People(s) as real;
    RealArith.MulNonNegative(p, prices.breakfast);
    RealArith.MulNonNegative(p, prices.lunch + prices.dinner);
    RealArith.MulNonNegative(p, prices.breakfast + prices.lunch + prices.dinner);
    RealArith.MulNonNegative(p, 0.0 + prices.lunch + prices.dinner);
  }

  // ---------------------------------------------------------------------------
  // Activities

  /** `activities.filter(a => a.enabled)`. */
  function EnabledActivities(acts: seq<Activity>): (r: seq<Activity>)
    ensures |r| <= |acts|
    ensures forall i :: 0 <= i < |r| ==> r[i].enabled
    ensures forall a {:trigger a in r} :: a in r ==> a in acts
    ensures forall i :: 0 <= i < |acts| && acts[i].enabled ==> acts[i] in r
  {
    if |acts| == 0 then []
    else (if acts[0].enabled then [acts[0]] else []) + EnabledActivities(acts[1..])
  }

  /**
    `.reduce((sum, a) => sum + a.pricePerPerson * totalPeople, 0)`: a left
    fold that charges every listed activity once for each traveller.
   */
  function PerHeadSum(acts: seq<Activity>, people: nat): (r: real)
    ensures r == people as real * PriceTotal(acts)
    ensures people == 0 ==> r == 0.0
  {
    if |acts| == 0 then 0.0
    else
      var init, last := acts[..|acts| - 1], acts[|acts| - 1];
      assert acts == init + [last];
      PriceTotalAppend(init, [last]);
      assert PriceTotal([last]) == last.pricePerPerson;
      RealArith.MulAddDistributes(people as real, PriceTotal(init), last.pricePerPerson);
      RealArith.ZeroProduct(people as real, PriceTotal(acts));
      PerHeadSum(init, people) + last.pricePerPerson * people as real
  }

  /** Sum of the per-person prices of a list of activities, summed from the front. */
  function PriceTotal(acts: seq<Activity>): real {
    if |acts| == 0 then 0.0 else acts[0].pricePerPerson + PriceTotal(acts[1..])
  }

  lemma {:induction false} PriceTotalAppend(a: seq<Activity>, b: seq<Activity>)
    ensures PriceTotal(a + b) == PriceTotal(a) + PriceTotal(b)
  {
    if |a| == 0 {
      assert a + b == b;
    } else {
      assert (a + b)[1..] == a[1..] + b;
      PriceTotalAppend(a[1..], b);
    }
  }

  /** Enabled activities are charged to every traveller; disabled ones cost nothing. */
  function ActivitiesCost(acts: seq<Activity>, people: nat): (r: real)
    ensures r == people as real * PriceTotal(EnabledActivities(acts))
    ensures people == 0 ==> r == 0.0
  {
    PerHeadSum(EnabledActivities(acts), people)
  }

  lemma {:induction false} EnabledAppend(a: seq<Activity>, b: seq<Activity>)
    ensures EnabledActivities(a + b) == EnabledActivities(a) + EnabledActivities(b)
  {
    if |a| == 0 {
      assert a + b == b;
    } else {
      assert (a + b)[1..] == a[1..] + b;
      EnabledAppend(a[1..], b);
    }
  }

  /** Inserting a disabled activity anywhere in the list leaves the activities bill unchanged. */
  lemma DisabledActivityCostsNothing(before: seq<Activity>, x: Activity, after: seq<Activity>, people: nat)
    requires !x.enabled
    ensures ActivitiesCost(before + [x] + after, people) == ActivitiesCost(before + after, people)
  {
    EnabledAppend(before + [x], after);
    EnabledAppend(before, [x]);
    EnabledAppend(before, after);
    assert EnabledActivities([x]) == [];
    calc {
      EnabledActivities(before + [x] + after);
      EnabledActivities(before + [x]) + EnabledActivities(after);
      EnabledActivities(before) + EnabledActivities(after);
      EnabledActivities(before + after);
    }
  }

  lemma {:induction false} PriceTotalNonNegative(acts: seq<Activity>)
    requires forall i :: 0 <= i < |acts| ==> acts[i].pricePerPerson >= 0.0
    ensures PriceTotal(acts) >= 0.0
  {
    if |acts| > 0 {
      PriceTotalNonNegative(acts[1..]);
    }
  }

  lemma {:induction false} EnabledPriceTotalNonNegative(acts: seq<Activity>)
    requires forall i :: 0 <= i < |acts| ==> acts[i].pricePerPerson >= 0.0
    ensures PriceTotal(EnabledActivities(acts)) >= 0.0
  {
    if |acts| > 0 {
      EnabledPriceTotalNonNegative(acts[1..]);
      EnabledAppend([acts[0]], acts[1..]);
      assert [acts[0]] + acts[1..] == acts;
      PriceTotalAppend(EnabledActivities([acts[0]]), EnabledActivities(acts[1..]));
    }
  }

  /** Non-negative activity prices give a non-negative activities bill. */
  lemma ActivitiesCostNonNegative(acts: seq<Activity>, people: nat)
    requires forall i :: 0 <= i < |acts| ==> acts[i].pricePerPerson >= 0.0
    ensures ActivitiesCost(acts, people) >= 0.0
  {
    EnabledPriceTotalNonNegative(acts);
    RealArith.MulNonNegative(people as real, PriceTotal(EnabledActivities(acts)));
  }

  // ---------------------------------------------------------------------------
  // Flights

  /** `flights.reduce((sum, f) => sum + f.price * mentors, 0)`: only mentors fly at the trip's cost. */
  function FlightsCost(flights: seq<Flight>, mentors: nat): (r: real)
    ensures mentors == 0 ==> r == 0.0
  {
    if |flights| == 0 then 0.0
    else
      RealArith.ZeroProduct(mentors as real, flights[|flights| - 1].price);
      FlightsCost(flights[..|flights| - 1], mentors) + flights[|flights| - 1].price * mentors as real
  }

  /** Sum of the ticket prices, summed from the front. */
  function FareTotal(flights: seq<Flight>): real {
    if |flights| == 0 then 0.0 else flights[0].price + FareTotal(flights[1..])
  }

  lemma {:induction false} FareTotalAppend(a: seq<Flight>, b: seq<Flight>)
    ensures FareTotal(a + b) == FareTotal(a) + FareTotal(b)
  {
    if |a| == 0 {
      assert a + b == b;
    } else {
      assert (a + b)[1..] == a[1..] + b;
      FareTotalAppend(a[1..], b);
    }
  }

  /** The flights bill is one ticket per mentor on every listed flight. */
  lemma {:induction false} FlightsCostIsScaledFare(flights: seq<Flight>, mentors: nat)
    ensures FlightsCost(flights, mentors) == mentors as real * FareTotal(flights)
  {
    if |flights| > 0 {
      var init, last := flights[..|flights| - 1], flights[|flights| - 1];
      FlightsCostIsScaledFare(init, mentors);
      assert flights == init + [last];
      FareTotalAppend(init, [last]);
      assert FareTotal([last]) == last.price;
      assert mentors as real * (FareTotal(init) + last.price)
          == mentors as real * FareTotal(init) + last.price * mentors as real;
    }
  }

  lemma {:induction false} FareTotalNonNegative(flights: seq<Flight>)
    requires forall i :: 0 <= i < |flights| ==> flights[i].price >= 0.0
    ensures FareTotal(flights) >= 0.0
  {
    if |flights| > 0 {
      FareTotalNonNegative(flights[1..]);
    }
  }

  // ---------------------------------------------------------------------------
  // Totals

  datatype Costs = Costs(hotel: HotelBill, transport: real, meals: real, activities: real, flights: real) {
    function Total(): real { hotel.total + transport + meals + activities + flights }
  }

  /** The five category bills of a trip. */
  function CategoryCosts(t: Trip): (c: Costs)
    ensures People(t.settings) == 0 ==> c.Total() == 0.0
    ensures t.settings.mentors == 0 ==> c.flights == 0.0
  {
    var s := t.settings;
    var bill := HotelCost(s, t.hotel);
    RealArith.ZeroProduct(bill.pairs as real, t.hotel.pricePerPair);
    RealArith.ZeroProduct(bill.singles as real, t.hotel.pricePerPerson);
    RealArith.ZeroProduct(People(s) as real, t.fares.mtr + t.fares.ferry);
    Costs(
      bill,
      TransportCost(s, t.fares, t.includeTransport),
      MealCost(s, t.hotel, t.mealOption, t.mealPrices),
      ActivitiesCost(t.activities, People(s)),
      FlightsCost(t.flights, s.mentors))
  }

  /** `hotelCost.total + transportCost + mealCost + activitiesCost + flightsCost`. */
  function TotalCost(t: Trip): (r: real)
    ensures r == HotelCost(t.settings, t.hotel).total + TransportCost(t.settings, t.fares, t.includeTransport)
      + MealCost(t.settings, t.hotel, t.mealOption, t.mealPrices) + ActivitiesCost(t.activities, People(t.settings))
      + FlightsCost(t.flights, t.settings.mentors)
    ensures People(t.settings) == 0 ==> r == 0.0
  {
    CategoryCosts(t).Total()
  }

  lemma HotelCostNonNegative(s: Settings, h: Hotel)
    requires h.pricePerPerson >= 0.0 && h.pricePerPair >= 0.0
    ensures HotelCost(s, h).total >= 0.0
  {
    var r := HotelCost(s, h);
    RealArith.MulNonNegative(r.pairs as real, h.pricePerPair);
    RealArith.MulNonNegative(r.singles as real, h.pricePerPerson);
  }

  lemma FlightsCostNonNegative(flights: seq<Flight>, mentors: nat)
    requires forall i :: 0 <= i < |flights| ==> flights[i].price >= 0.0
    ensures FlightsCost(flights, mentors) >= 0.0
  {
    FlightsCostIsScaledFare(flights, mentors);
    FareTotalNonNegative(flights);
    RealArith.MulNonNegative(mentors as real, FareTotal(flights));
  }

  /** Non-negative prices give non-negative category bills and a non-negative total. */
  lemma TotalCostNonNegative(t: Trip)
    requires NonNegativePrices(t)
    ensures var c := CategoryCosts(t);
      && c.hotel.total >= 0.0 && c.transport >= 0.0 && c.meals >= 0.0
      && c.activities >= 0.0 && c.flights >= 0.0
      && TotalCost(t) >= 0.0
  {
    var s := t.settings;
    var c := CategoryCosts(t);
    assert c == Costs(
      HotelCost(s, t.hotel),
      TransportCost(s, t.fares, t.includeTransport),
      MealCost(s, t.hotel, t.mealOption, t.mealPrices),
      ActivitiesCost(t.activities, People(s)),
      FlightsCost(t.flights, s.mentors));
    HotelCostNonNegative(s, t.hotel);
    RealArith.MulNonNegative(t.fares.mtr + t.fares.ferry, People(s) as real);
    MealCostNonNegative(s, t.hotel, t.mealOption, t.mealPrices);
    ActivitiesCostNonNegative(t.activities, People(s));
    FlightsCostNonNegative(t.flights, s.mentors);
    assert TotalCost(t) == c.hotel.total + c.transport + c.meals + c.activities + c.flights;
  }

  // ---------------------------------------------------------------------------
  // Mentor costs

  datatype MentorCosts = MentorCosts(hotel: real, transport: real, meals: real, activities: real, flights: real) {
    /** The mentors' places cost at least their flights when no other share is negative. */
    function Total(): (r: real)
      ensures hotel >= 0.0 && transport >= 0.0 && meals >= 0.0 && activities >= 0.0 ==> r >= flights
    {
      hotel + transport + meals + activities + flights
    }
  }

  /**
    A mentor's head-count share of a category bill, taken only when the bill
    is positive; a positive bill implies a non-empty group, so the division
    is safe.
   */
  function MentorShare(bill: real, s: Settings): (r: real)
    requires People(s) == 0 ==> bill == 0.0
    ensures s.mentors == 0 ==> r == 0.0
    ensures bill > 0.0 ==> r * People(s) as real == bill * s.mentors as real
    ensures bill <= 0.0 ==> r == 0.0
  {
    if bill > 0.0 then
      RealArith.ShareTimesWhole(bill, People(s) as real, s.mentors as real);
      RealArith.ZeroProduct(s.mentors as real, bill / People(s) as real);
      (bill / People(s) as real) * s.mentors as real
    else 0.0
  }

  /**
    `settings.mentors * selectedHotel.pricePerPerson`: one single place per
    mentor, which is what the mentors add to the students' hotel bill.
   */
  function MentorRooms(s: Settings, h: Hotel): (r: real)
    ensures r == HotelCost(s, h).total - HotelCost(s.(mentors := 0), h).total
    ensures s.mentors == 0 ==> r == 0.0
  {
    var pairs := s.students / 2;
    var odd := s.students % 2;
    assert (odd + s.mentors) as real * h.pricePerPerson
        == odd as real * h.pricePerPerson + s.mentors as real * h.pricePerPerson;
    s.mentors as real * h.pricePerPerson
  }

  /** The mentors' MTR and ferry fares, when transport is included: the mentors' own transport bill. */
  function MentorFares(s: Settings, fares: Transport, included: bool): (r: real)
    ensures r == TransportCost(s.(students := 0), fares, included)
    ensures !included || s.mentors == 0 ==> r == 0.0
  {
    if included then s.mentors as real * (fares.mtr + fares.ferry) else 0.0
  }

  /**
    What the mentors' places cost: their single rooms, their fares, their
    head-count share of meals and activities, and every flight.
   */
  function MentorBreakdown(t: Trip): (r: MentorCosts)
    ensures t.settings.mentors == 0 ==> r.Total() == 0.0
    ensures r.hotel == MentorRooms(t.settings, t.hotel)
    ensures r.transport == MentorFares(t.settings, t.fares, t.includeTransport)
    ensures r.meals == MentorShare(CategoryCosts(t).meals, t.settings)
    ensures r.activities == MentorShare(CategoryCosts(t).activities, t.settings)
    ensures r.flights == CategoryCosts(t).flights
  {
    var s := t.settings;
    var c := CategoryCosts(t);
    RealArith.ZeroProduct(s.mentors as real, t.hotel.pricePerPerson);
    RealArith.ZeroProduct(s.mentors as real, t.fares.mtr + t.fares.ferry);
    MentorCosts(
      MentorRooms(s, t.hotel),
      MentorFares(s, t.fares, t.includeTransport),
      MentorShare(c.meals, s),
      MentorShare(c.activities, s),
      c.flights)
  }

  /** A head-count share of a non-negative bill lies between 0 and the bill. */
  lemma MentorShareWithinBill(bill: real, s: Settings)
    requires bill >= 0.0
    requires People(s) == 0 ==> bill == 0.0
    ensures 0.0 <= MentorShare(bill, s) <= bill
  {
    if bill > 0.0 {
      RealArith.ShareWithin(bill, People(s) as real, s.mentors as real);
    }
  }

  /** The mentors' rooms are part of the hotel bill. */
  lemma MentorHotelWithinBill(s: Settings, h: Hotel)
    requires h.pricePerPerson >= 0.0 && h.pricePerPair >= 0.0
    ensures 0.0 <= MentorRooms(s, h) <= HotelCost(s, h).total
  {
    var r := HotelCost(s, h);
    var pp := h.pricePerPerson;
    RealArith.MulMonotone(pp, s.mentors as real, r.singles as real);
    RealArith.MulNonNegative(r.pairs as real, h.pricePerPair);
    RealArith.MulNonNegative(s.mentors as real, pp);
  }

  /** The mentors' fares are part of the transport bill. */
  lemma MentorFaresWithinBill(s: Settings, fares: Transport, included: bool)
    requires fares.mtr >= 0.0 && fares.ferry >= 0.0
    ensures 0.0 <= MentorFares(s, fares, included) <= TransportCost(s, fares, included)
  {
    var fare := fares.mtr + fares.ferry;
    RealArith.MulMonotone(fare, s.mentors as real, People(s) as real);
    RealArith.MulNonNegative(s.mentors as real, fare);
  }

  /** The mentors' meals are part of the meal bill. */
  lemma MentorMealsWithinBill(s: Settings, h: Hotel, option: MealOption, prices: Meals)
    requires prices.breakfast >= 0.0 && prices.lunch >= 0.0 && prices.dinner >= 0.0
    ensures 0.0 <= MentorShare(MealCost(s, h, option, prices), s) <= MealCost(s, h, option, prices)
  {
    MealCostNonNegative(s, h, option, prices);
    MentorShareWithinBill(MealCost(s, h, option, prices), s);
  }

  /** The mentors' activities are part of the activities bill. */
  lemma MentorActivitiesWithinBill(acts: seq<Activity>, s: Settings)
    requires forall i :: 0 <= i < |acts| ==> acts[i].pricePerPerson >= 0.0
    ensures 0.0 <= MentorShare(ActivitiesCost(acts, People(s)), s) <= ActivitiesCost(acts, People(s))
  {
    ActivitiesCostNonNegative(acts, People(s));
    MentorShareWithinBill(ActivitiesCost(acts, People(s)), s);
  }

  /** With non-negative prices, the mentors' cost in each category is part of that category's bill. */
  lemma MentorCostPerCategory(t: Trip)
    requires NonNegativePrices(t)
    ensures var m, c := MentorBreakdown(t), CategoryCosts(t);
      && 0.0 <= m.hotel <= c.hotel.total
      && 0.0 <= m.transport <= c.transport
      && 0.0 <= m.meals <= c.meals
      && 0.0 <= m.activities <= c.activities
      && m.flights == c.flights
  {
    var s := t.settings;
    var c, m := CategoryCosts(t), MentorBreakdown(t);
    assert c == Costs(
      HotelCost(s, t.hotel),
      TransportCost(s, t.fares, t.includeTransport),
      MealCost(s, t.hotel, t.mealOption, t.mealPrices),
      ActivitiesCost(t.activities, People(s)),
      FlightsCost(t.flights, s.mentors));
    assert m == MentorCosts(
      MentorRooms(s, t.hotel),
      MentorFares(s, t.fares, t.includeTransport),
      MentorShare(c.meals, s),
      MentorShare(c.activities, s),
      c.flights);
    MentorHotelWithinBill(s, t.hotel);
    MentorFaresWithinBill(s, t.fares, t.includeTransport);
    MentorMealsWithinBill(s, t.hotel, t.mealOption, t.mealPrices);
    MentorActivitiesWithinBill(t.activities, s);
  }

  /** With non-negative prices, what the mentors cost is part of the total cost. */
  lemma MentorCostWithinTotal(t: Trip)
    requires NonNegativePrices(t)
    ensures 0.0 <= MentorBreakdown(t).Total() <= TotalCost(t)
  {
    MentorCostPerCategory(t);
    TotalCostNonNegative(t);
    var m, c := MentorBreakdown(t), CategoryCosts(t);
    assert m.Total() == m.hotel + m.transport + m.meals + m.activities + m.flights;
    assert TotalCost(t) == c.hotel.total + c.transport + c.meals + c.activities + c.flights;
  }

  // ---------------------------------------------------------------------------
  // Revenue, tax, profit

  datatype Financials = Financials(
    totalRevenue: real,
    taxAmount: real,
    revenueAfterTax: real,
    profit: real,
    marginPercent: real,
    costPerStudent: real,
    marginPerStudent: real)

  /**
    Only students pay; tax is a percentage of revenue; profit is what is
    left after tax and costs, never clamped at zero; the per-student and
    margin figures are 0 where their divisor is 0 (or revenue is not positive).
   */
  function RevenueAndProfit(s: Settings, totalCost: real): (r: Financials)
    ensures r.totalRevenue == s.students as real * s.pricePerStudent
    ensures r.taxAmount * 100.0 == r.totalRevenue * s.taxPercent
    ensures r.taxAmount + r.revenueAfterTax == r.totalRevenue
    ensures r.profit + totalCost == r.revenueAfterTax
    ensures r.totalRevenue > 0.0 ==> r.marginPercent * r.totalRevenue == r.profit * 100.0
    ensures r.totalRevenue <= 0.0 ==> r.marginPercent == 0.0
    ensures s.students > 0 ==> r.costPerStudent * s.students as real == totalCost
    ensures s.students > 0 ==> r.marginPerStudent * s.students as real == r.profit
    ensures s.students == 0 ==> r.costPerStudent == 0.0 && r.marginPerStudent == 0.0
  {
    var totalRevenue := s.students as real * s.pricePerStudent;
    var taxAmount := (totalRevenue * s.taxPercent) / 100.0;
    var revenueAfterTax := totalRevenue - taxAmount;
    var profit := revenueAfterTax - totalCost;
    var marginPercent :=
      if totalRevenue > 0.0 then (RealArith.DivMul(profit, totalRevenue); (profit / totalRevenue) * 100.0) else 0.0;
    var costPerStudent :=
      if s.students > 0 then (RealArith.DivMul(totalCost, s.students as real); totalCost / s.students as real) else 0.0;
    var marginPerStudent :=
      if s.students > 0 then (RealArith.DivMul(profit, s.students as real); profit / s.students as real) else 0.0;
    Financials(totalRevenue, taxAmount, revenueAfterTax, profit, marginPercent, costPerStudent, marginPerStudent)
  }

  /** The figures shown for a trip. */
  function Report(t: Trip): (r: Financials)
    ensures r.profit == r.revenueAfterTax - TotalCost(t)
  {
    RevenueAndProfit(t.settings, TotalCost(t))
  }

  /** Mentors do not pay: revenue and tax depend on neither the number of mentors nor the costs. */
  lemma RevenueIgnoresMentors(s: Settings, mentors: nat, cost: real, otherCost: real)
    ensures var r, r' := RevenueAndProfit(s, cost), RevenueAndProfit(s.(mentors := mentors), otherCost);
      && r'.totalRevenue == r.totalRevenue
      && r'.taxAmount == r.taxAmount
      && r'.revenueAfterTax == r.revenueAfterTax
  {
  }

  /** A larger cost never gives a larger profit: profit falls one-for-one with cost. */
  lemma ProfitFallsWithCost(s: Settings, cost: real, higherCost: real)
    requires cost <= higherCost
    ensures RevenueAndProfit(s, higherCost).profit == RevenueAndProfit(s, cost).profit - (higherCost - cost)
  {
    RevenueIgnoresMentors(s, s.mentors, cost, higherCost);
  }

  /** One more mentor adds one per-person place to the hotel bill. */
  lemma HotelExtraMentor(s: Settings, h: Hotel)
    ensures HotelCost(s.(mentors := s.mentors + 1), h).total == HotelCost(s, h).total + h.pricePerPerson
  {
    var r, r' := HotelCost(s, h), HotelCost(s.(mentors := s.mentors + 1), h);
    assert r'.pairs == r.pairs && r'.singles == r.singles + 1;
    assert (r.singles + 1) as real * h.pricePerPerson == r.singles as real * h.pricePerPerson + h.pricePerPerson;
  }

  lemma TransportExtraMentor(s: Settings, fares: Transport, included: bool)
    requires fares.mtr >= 0.0 && fares.ferry >= 0.0
    ensures TransportCost(s.(mentors := s.mentors + 1), fares, included) >= TransportCost(s, fares, included)
  {
    var fare := fares.mtr + fares.ferry;
    assert fare * (People(s) + 1) as real == fare * People(s) as real + fare;
  }

  /** Meal bills grow with the group when prices are non-negative. */
  lemma MealExtraMentor(s: Settings, h: Hotel, option: MealOption, prices: Meals)
    requires prices.breakfast >= 0.0 && prices.lunch >= 0.0 && prices.dinner >= 0.0
    ensures MealCost(s.(mentors := s.mentors + 1), h, option, prices) >= MealCost(s, h, option, prices)
  {
    var p := People(s) as real;
    var b, l, d := prices.breakfast, prices.lunch, prices.dinner;
    assert (p + 1.0) * b == p * b + b;
    assert (p + 1.0) * (l + d) == p * (l + d) + (l + d);
    assert (p + 1.0) * (0.0 + l + d) == p * (0.0 + l + d) + (l + d);
    assert (p + 1.0) * (b + l + d) == p * (b + l + d) + (b + l + d);
  }

  lemma ActivitiesExtraMentor(acts: seq<Activity>, people: nat)
    requires forall i :: 0 <= i < |acts| ==> acts[i].pricePerPerson >= 0.0
    ensures ActivitiesCost(acts, people + 1) >= ActivitiesCost(acts, people)
  {
    var e := PriceTotal(EnabledActivities(acts));
    EnabledPriceTotalNonNegative(acts);
    assert (people + 1) as real * e == people as real * e + e;
  }

  lemma FlightsExtraMentor(flights: seq<Flight>, mentors: nat)
    requires forall i :: 0 <= i < |flights| ==> flights[i].price >= 0.0
    ensures FlightsCost(flights, mentors + 1) >= FlightsCost(flights, mentors)
  {
    FlightsCostIsScaledFare(flights, mentors);
    FlightsCostIsScaledFare(flights, mentors + 1);
    FareTotalNonNegative(flights);
    var f := FareTotal(flights);
    assert (mentors + 1) as real * f == mentors as real * f + f;
  }

  /** With non-negative prices, one more mentor never makes the trip cheaper nor the profit larger. */
  lemma ExtraMentorNeverCheaper(t: Trip)
    requires NonNegativePrices(t)
    ensures var t' := t.(settings := t.settings.(mentors := t.settings.mentors + 1));
      && TotalCost(t') >= TotalCost(t)
      && Report(t').profit <= Report(t).profit
  {
    var s := t.settings;
    var s' := s.(mentors := s.mentors + 1);
    var t' := t.(settings := s');
    var c, c' := CategoryCosts(t), CategoryCosts(t');
    assert c == Costs(
      HotelCost(s, t.hotel),
      TransportCost(s, t.fares, t.includeTransport),
      MealCost(s, t.hotel, t.mealOption, t.mealPrices),
      ActivitiesCost(t.activities, People(s)),
      FlightsCost(t.flights, s.mentors));
    assert c' == Costs(
      HotelCost(s', t.hotel),
      TransportCost(s', t.fares, t.includeTransport),
      MealCost(s', t.hotel, t.mealOption, t.mealPrices),
      ActivitiesCost(t.activities, People(s')),
      FlightsCost(t.flights, s'.mentors));
    HotelExtraMentor(s, t.hotel);
    TransportExtraMentor(s, t.fares, t.includeTransport);
    MealExtraMentor(s, t.hotel, t.mealOption, t.mealPrices);
    assert People(s') == People(s) + 1;
    ActivitiesExtraMentor(t.activities, People(s));
    FlightsExtraMentor(t.flights, s.mentors);
    assert TotalCost(t) == c.Total() && TotalCost(t') == c'.Total();
    ProfitFallsWithCost(s', TotalCost(t), TotalCost(t'));
    RevenueIgnoresMentors(s, s.mentors + 1, TotalCost(t), TotalCost(t));
  }

  /**
    `Math.ceil(totalCost / students)`, the suggested minimum price per
    student: the least whole price whose revenue covers the cost. The source
    does not guard the division, so this needs a student.
   */
  function MinimumPriceHint(totalCost: real, students: nat): (r: int)
    requires students > 0
    ensures r as real * students as real >= totalCost
    ensures (r as real - 1.0) * students as real < totalCost
  {
    var n := students as real;
    var q := totalCost / n;
    var c := -((-q).Floor);
    RealArith.DivMul(totalCost, n);
    RealArith.AboveQuotientCovers(totalCost, n, q, c as real);
    RealArith.BelowNextQuotientFallsShort(totalCost, n, q, c as real);
    c
  }

}
