/**
  The second revision of the budget engine. It computes the same five
  category bills as the first revision, and splits each bill into what the
  students' places cost and what the mentors' places cost:
  - hotel: the students' pair rooms and odd single against the mentors'
    single rooms;
  - transport: fares per cohort;
  - meals and activities: an equal per-head share;
  - flights: mentors only.
  Summing the splits gives the students' and the mentors' totals. Revenue,
  tax and profit are computed as in the first revision.
 */
module BudgetV2 {
  import opened TripTypes
  import Budget

  /** One category's bill and its students' and mentors' shares, which are meant to add up to the bill. */
  datatype Split = Split(total: real, studentsCost: real, mentorsCost: real)

  // ---------------------------------------------------------------------------
  // Category splits

  /**
    The hotel bill of the first revision. The students pay their pair rooms
    and the odd student's single place; the mentors pay their own single
    places.
   */
  function HotelSplit(s: Settings, h: Hotel): (r: Split)
    ensures r.total == Budget.HotelCost(s, h).total
    ensures r.studentsCost + r.mentorsCost == r.total
    ensures r.studentsCost == Budget.HotelCost(s.(mentors := 0), h).total
    ensures r.mentorsCost == Budget.MentorRooms(s, h)
  {
    var studentPairs := s.students / 2;
    var studentSingles := s.students % 2;
    var mentorSingles := s.mentors;
    var pairsCost := studentPairs as real * h.pricePerPair;
    var singlesCost := (studentSingles + mentorSingles) as real * h.pricePerPerson;
    assert singlesCost == studentSingles as real * h.pricePerPerson + mentorSingles as real * h.pricePerPerson;
    Split(
      pairsCost + singlesCost,
      pairsCost + studentSingles as real * h.pricePerPerson,
      mentorSingles as real * h.pricePerPerson)
  }

  /** Each cohort pays the MTR and ferry fares for its own members; nothing when transport is off. */
  function TransportSplit(s: Settings, fares: Transport, included: bool): (r: Split)
    ensures r.total == Budget.TransportCost(s, fares, included)
    ensures r.studentsCost + r.mentorsCost == r.total
    ensures r.studentsCost == Budget.TransportCost(s.(mentors := 0), fares, included)
    ensures r.mentorsCost == Budget.TransportCost(s.(students := 0), fares, included)
    ensures r.mentorsCost == Budget.MentorFares(s, fares, included)
  {
    if !included then Split(0.0, 0.0, 0.0)
    else
      var perPerson := fares.mtr + fares.ferry;
      assert perPerson * People(s) as real == perPerson * s.students as real + perPerson * s.mentors as real;
      Split(perPerson * People(s) as real, perPerson * s.students as real, perPerson * s.mentors as real)
  }

  /**
    An equal share per head of a bill shared by the whole group. The guard
    against an empty group gives both cohorts nothing.
   */
  function PerHeadSplit(total: real, s: Settings): (r: Split)
    ensures r.total == total
    ensures People(s) > 0 ==> r.studentsCost + r.mentorsCost == r.total
    ensures People(s) > 0 ==> r.mentorsCost * People(s) as real == total * s.mentors as real
    ensures People(s) > 0 ==> r.studentsCost * People(s) as real == total * s.students as real
    ensures People(s) == 0 ==> r.studentsCost == 0.0 && r.mentorsCost == 0.0
  {
    var totalPeople := People(s);
    var perPerson := if totalPeople > 0 then total / totalPeople as real else 0.0;
    if totalPeople > 0 then
      var n := totalPeople as real;
      assert perPerson * n == total;
      assert perPerson * s.students as real + perPerson * s.mentors as real == perPerson * n;
      assert (perPerson * s.mentors as real) * n == (perPerson * n) * s.mentors as real;
      assert (perPerson * s.students as real) * n == (perPerson * n) * s.students as real;
      Split(total, perPerson * s.students as real, perPerson * s.mentors as real)
    else
      Split(total, perPerson * s.students as real, perPerson * s.mentors as real)
  }

  /** The meal bill of the first revision, shared per head. */
  function MealSplit(s: Settings, h: Hotel, option: MealOption, prices: Meals): (r: Split)
    ensures r.total == Budget.MealCost(s, h, option, prices)
    ensures r.studentsCost + r.mentorsCost == r.total
  {
    PerHeadSplit(Budget.MealCost(s, h, option, prices), s)
  }

  /** The activities bill of the first revision, shared per head. */
  function ActivitiesSplit(acts: seq<Activity>, s: Settings): (r: Split)
    ensures r.total == Budget.ActivitiesCost(acts, People(s))
    ensures r.studentsCost + r.mentorsCost == r.total
  {
    PerHeadSplit(Budget.ActivitiesCost(acts, People(s)), s)
  }

  /** Flights are for mentors only: the students' share is nothing. */
  function FlightsSplit(flights: seq<Flight>, s: Settings): (r: Split)
    ensures r.total == Budget.FlightsCost(flights, s.mentors)
    ensures r.studentsCost == 0.0
    ensures r.studentsCost + r.mentorsCost == r.total
  {
    var total := Budget.FlightsCost(flights, s.mentors);
    Split(total, 0.0, total)
  }

  // ---------------------------------------------------------------------------
  // Totals

  datatype Breakdown = Breakdown(hotel: Split, transport: Split, meals: Split, activities: Split, flights: Split) {
    /** `totalCost`: the five bills added; when every split is conserved, the two cohorts' totals added. */
    function TotalCost(): (r: real)
      ensures Conserved() ==> r == TotalStudentsCost() + TotalMentorCost()
    {
      hotel.total + transport.total + meals.total + activities.total + flights.total
    }
    /** `totalMentorCost`: when every split is conserved, what the five bills leave after the students' shares. */
    function TotalMentorCost(): (r: real)
      ensures Conserved() ==>
        r == (hotel.total + transport.total + meals.total + activities.total + flights.total)
           - (hotel.studentsCost + transport.studentsCost + meals.studentsCost + activities.studentsCost + flights.studentsCost)
    {
      hotel.mentorsCost + transport.mentorsCost + meals.mentorsCost + activities.mentorsCost + flights.mentorsCost
    }
    /** `totalStudentsCost`: when every split is conserved, what the five bills leave after the mentors' shares. */
    function TotalStudentsCost(): (r: real)
      ensures Conserved() ==>
        r == (hotel.total + transport.total + meals.total + activities.total + flights.total)
           - (hotel.mentorsCost + transport.mentorsCost + meals.mentorsCost + activities.mentorsCost + flights.mentorsCost)
    {
      hotel.studentsCost + transport.studentsCost + meals.studentsCost + activities.studentsCost + flights.studentsCost
    }
    /** Every category's shares add up to its bill. */
    predicate Conserved() {
      && hotel.studentsCost + hotel.mentorsCost == hotel.total
      && transport.studentsCost + transport.mentorsCost == transport.total
      && meals.studentsCost + meals.mentorsCost == meals.total
      && activities.studentsCost + activities.mentorsCost == activities.total
      && flights.studentsCost + flights.mentorsCost == flights.total
    }
  }

  /** The five splits of a trip; each is conserved and each bill is the first revision's. */
  function Splits(t: Trip): (r: Breakdown)
    ensures r.Conserved()
    ensures r.TotalCost() == Budget.TotalCost(t)
    ensures r.TotalStudentsCost() + r.TotalMentorCost() == Budget.TotalCost(t)
  {
    var s := t.settings;
    var r := Breakdown(
      HotelSplit(s, t.hotel),
      TransportSplit(s, t.fares, t.includeTransport),
      MealSplit(s, t.hotel, t.mealOption, t.mealPrices),
      ActivitiesSplit(t.activities, s),
      FlightsSplit(t.flights, s));
    BillsAdd(r, t);
    r
  }

  /** Breakdowns whose bills are the first revision's five category bills have its total. */
  lemma BillsAdd(b: Breakdown, t: Trip)
    requires b.hotel.total == Budget.HotelCost(t.settings, t.hotel).total
    requires b.transport.total == Budget.TransportCost(t.settings, t.fares, t.includeTransport)
    requires b.meals.total == Budget.MealCost(t.settings, t.hotel, t.mealOption, t.mealPrices)
    requires b.activities.total == Budget.ActivitiesCost(t.activities, People(t.settings))
    requires b.flights.total == Budget.FlightsCost(t.flights, t.settings.mentors)
    ensures b.TotalCost() == Budget.TotalCost(t)
  {
  }

  /**
    The second revision's per-head share of a bill that is not negative is
    the first revision's mentor share: the first guards on a positive bill,
    the second on a non-empty group, and a zero bill gives nothing either way.
   */
  lemma PerHeadShareAgrees(bill: real, s: Settings)
    requires bill >= 0.0
    requires People(s) == 0 ==> bill == 0.0
    ensures PerHeadSplit(bill, s).mentorsCost == Budget.MentorShare(bill, s)
  {
    if People(s) > 0 && bill == 0.0 {
      assert bill / People(s) as real == 0.0;
    }
  }

  /**
    For a negative bill, which the input fields allow, the two revisions
    part: the first charges the mentors nothing and the second their
    head-count share, which is negative.
   */
  lemma NegativeBillDiverges(bill: real, s: Settings)
    requires bill < 0.0 && s.mentors > 0
    ensures Budget.MentorShare(bill, s) == 0.0
    ensures PerHeadSplit(bill, s).mentorsCost < 0.0
  {
    var r := PerHeadSplit(bill, s);
    assert r.mentorsCost * People(s) as real == bill * s.mentors as real;
    assert bill * s.mentors as real < 0.0;
  }

  /**
    Where the prices are not negative, the two revisions charge the mentors
    the same in every category.
   */
  lemma MentorCostAgreesWithFirstRevision(t: Trip)
    requires NonNegativePrices(t)
    ensures var b, m := Splits(t), Budget.MentorBreakdown(t);
      && b.hotel.mentorsCost == m.hotel
      && b.transport.mentorsCost == m.transport
      && b.meals.mentorsCost == m.meals
      && b.activities.mentorsCost == m.activities
      && b.flights.mentorsCost == m.flights
  {
    var s := t.settings;
    MealsAgree(s, t.hotel, t.mealOption, t.mealPrices);
    ActivitiesAgree(t.activities, s);
  }

  /** And so, where the prices are not negative, the same in all. */
  lemma MentorTotalAgreesWithFirstRevision(t: Trip)
    requires NonNegativePrices(t)
    ensures Splits(t).TotalMentorCost() == Budget.MentorBreakdown(t).Total()
  {
    MentorCostAgreesWithFirstRevision(t);
    SameMentorBills(Splits(t), Budget.MentorBreakdown(t));
  }

  /** The two revisions' mentor shares of the meal bill agree for non-negative meal prices. */
  lemma MealsAgree(s: Settings, h: Hotel, option: MealOption, prices: Meals)
    requires prices.breakfast >= 0.0 && prices.lunch >= 0.0 && prices.dinner >= 0.0
    ensures MealSplit(s, h, option, prices).mentorsCost == Budget.MentorShare(Budget.MealCost(s, h, option, prices), s)
  {
    Budget.MealCostNonNegative(s, h, option, prices);
    PerHeadShareAgrees(Budget.MealCost(s, h, option, prices), s);
  }

  /** The two revisions' mentor shares of the activities bill agree for non-negative activity prices. */
  lemma ActivitiesAgree(acts: seq<Activity>, s: Settings)
    requires forall i :: 0 <= i < |acts| ==> acts[i].pricePerPerson >= 0.0
    ensures ActivitiesSplit(acts, s).mentorsCost == Budget.MentorShare(Budget.ActivitiesCost(acts, People(s)), s)
  {
    Budget.ActivitiesCostNonNegative(acts, People(s));
    PerHeadShareAgrees(Budget.ActivitiesCost(acts, People(s)), s);
  }

  lemma SameMentorBills(b: Breakdown, m: Budget.MentorCosts)
    requires b.hotel.mentorsCost == m.hotel && b.transport.mentorsCost == m.transport
    requires b.meals.mentorsCost == m.meals && b.activities.mentorsCost == m.activities
    requires b.flights.mentorsCost == m.flights
    ensures b.TotalMentorCost() == m.Total()
  {
  }

  // ---------------------------------------------------------------------------
  // Revenue, tax, profit

  /** The figures shown for a trip, computed from the split total. */
  function Report(t: Trip): (r: Budget.Financials)
    ensures r == Budget.Report(t)
  {
    Budget.RevenueAndProfit(t.settings, Splits(t).TotalCost())
  }
}
